/** The root hash commits to the trie: equal roots mean equal tries, or a hash collision among
    the node encodings that were hashed. */
module TrieCommitment {
  import opened Primitives
  import opened BigEndian
  import opened Rlp
  import opened Trie
  import opened TrieCanonical
  import opened TrieHash

  const MAX_LEN: nat := 0x4000_0000_0000_0000

  /** Paths and values are in-memory vectors, shorter than 2^62 elements. */
  predicate Bounded(node: TrieNode) {
    match node
    case Leaf(remaining, v) => |remaining| < MAX_LEN && |v| < MAX_LEN
    case Extension(shared, child) => |shared| < MAX_LEN && Bounded(child)
    case Branch(children, v) =>
      && (v.Some? ==> |v.value| < MAX_LEN)
      && forall i :: 0 <= i < |children| && children[i].Some? ==> Bounded(children[i].value)
  }

  predicate SlotBounded(slot: Slot) {
    slot.Some? ==> Bounded(slot.value)
  }

  // ---------- Node encodings fit in memory ----------

  lemma {:induction false} PrefixAtMost9(offset: byte, len: u64)
    ensures |LengthPrefix(offset, len)| <= 9
  {
    hide ToBytes;
    U64Width(len);
  }

  lemma {:induction false} BytesLen(data: ByteString)
    requires |data| < U64_LIMIT
    ensures |Encoding(Bytes(data))| <= 9 + |data|
    ensures |data| == 32 ==> |Encoding(Bytes(data))| == 33
  {
    PrefixAtMost9(0x80, |data|);
  }

  lemma {:induction false} RefAtMost33(keccak: Keccak, slot: Slot)
    requires SlotShaped(slot)
    ensures |Encoding(SlotItem(keccak, slot))| <= 33
  {
    BytesLen([]);
    if slot.Some? {
      BytesLen(keccak(NodeBytes(keccak, slot.value)));
    }
  }

  lemma {:induction false} ShortItems(items: seq<RlpItem>)
    requires forall i :: 0 <= i < |items| ==> |Encoding(items[i])| <= 33
    ensures |Payload(items)| <= 33 * |items|
    decreases |items|
  {
    hide Encoding;
    if items != [] {
      ShortItems(items[1..]);
    }
  }

  lemma {:induction false} PairFits(a: RlpItem, b: RlpItem)
    requires |Encoding(a)| + |Encoding(b)| < U64_LIMIT - 9
    ensures Fits(List([a, b]))
  {
    assert [a, b] == [a] + [b];
    PayloadSnoc([a, b], 0);
    PayloadSnoc([a, b], 1);
    assert [a, b][..2] == [a, b] && [a, b][..0] == [];
    PrefixAtMost9(0xc0, |Payload([a, b])|);
  }

  lemma {:induction false} BranchFits(items: seq<RlpItem>, last: RlpItem)
    requires |items| == 16 && forall i :: 0 <= i < 16 ==> |Encoding(items[i])| <= 33
    requires |Encoding(last)| < U64_LIMIT / 2
    ensures Fits(List(items + [last]))
  {
    ShortItems(items);
    var all := items + [last];
    PayloadSnoc(all, 16);
    assert all[..16] == items && all[..17] == all;
    PrefixAtMost9(0xc0, |Payload(all)|);
  }

  lemma {:induction false} NodeFits(keccak: Keccak, node: TrieNode)
    requires Shaped(node) && Bounded(node)
    ensures Fits(NodeItem(keccak, node))
  {
    hide Encoding, Payload;
    match node
    case Leaf(remaining, v) =>
      BytesLen(Hp(remaining, true));
      BytesLen(v);
      PairFits(Bytes(Hp(remaining, true)), Bytes(v));
    case Extension(shared, child) =>
      BytesLen(Hp(shared, false));
      RefAtMost33(keccak, Some(child));
      PairFits(Bytes(Hp(shared, false)), RefItem(keccak, child));
    case Branch(children, v) =>
      var items := seq(16, i requires 0 <= i < 16 => SlotItem(keccak, children[i]));
      forall i | 0 <= i < 16 ensures |Encoding(items[i])| <= 33 {
        RefAtMost33(keccak, children[i]);
      }
      BytesLen(ValueItem(v).data);
      BranchFits(items, ValueItem(v));
  }

  // ---------- Commitment ----------

  /** The byte strings hashed when the root of this node is computed: its own encoding and,
      recursively, those of the children too long to be inlined. */
  ghost function Hashed(keccak: Keccak, node: TrieNode): set<ByteString>
    requires Shaped(node)
    decreases node, 1
  {
    {NodeBytes(keccak, node)} + HashedBelow(keccak, node)
  }

  ghost function HashedBelow(keccak: Keccak, node: TrieNode): set<ByteString>
    requires Shaped(node)
    decreases node, 0
  {
    match node
    case Leaf(_, _) => {}
    case Extension(_, child) => HashedRef(keccak, child)
    case Branch(children, _) =>
      set i, x | 0 <= i < 16 && children[i].Some? && x in HashedRef(keccak, children[i].value) :: x
  }

  ghost function HashedRef(keccak: Keccak, node: TrieNode): set<ByteString>
    requires Shaped(node)
    decreases node, 2
  {
    if |NodeBytes(keccak, node)| < 32 then {} else Hashed(keccak, node)
  }

  ghost function HashedFor(keccak: Keccak, slot: Slot): set<ByteString>
    requires SlotShaped(slot)
  {
    if slot.None? then {[0x80]} else Hashed(keccak, slot.value)
  }

  ghost predicate Collision(keccak: Keccak, xs: set<ByteString>, ys: set<ByteString>) {
    exists x, y :: x in xs && y in ys && x != y && keccak(x) == keccak(y)
  }

  lemma {:induction false} CollisionGrows(
      keccak: Keccak, xs: set<ByteString>, ys: set<ByteString>, xs': set<ByteString>, ys': set<ByteString>)
    requires Collision(keccak, xs, ys) && xs <= xs' && ys <= ys'
    ensures Collision(keccak, xs', ys')
  {
    var x, y :| x in xs && y in ys && x != y && keccak(x) == keccak(y);
    assert x in xs' && y in ys';
  }

  /** A list containing a 32-byte string is itself too long to be inlined. */
  lemma {:induction false} HashMakesLong(items: seq<RlpItem>, i: nat)
    requires i < |items| && items[i].Bytes? && |items[i].data| == 32
    ensures |Encoding(List(items))| >= 32
  {
    PayloadSnoc(items, i);
    BytesLen(items[i].data);
  }

  lemma {:induction false} InlineHasNoHashes(keccak: Keccak, node: TrieNode)
    requires Shaped(node) && |NodeBytes(keccak, node)| < 32
    ensures HashedBelow(keccak, node) == {}
  {
    hide Encoding;
    var items := NodeItem(keccak, node).items;
    match node
    case Leaf(_, _) =>
    case Extension(_, child) =>
      assert items[1] == RefItem(keccak, child);
      if |NodeBytes(keccak, child)| >= 32 {
        HashMakesLong(items, 1);
      }
    case Branch(children, _) =>
      forall i | 0 <= i < 16 && children[i].Some? ensures HashedRef(keccak, children[i].value) == {} {
        assert items[i] == SlotItem(keccak, children[i]);
        assert items[i] == RefItem(keccak, children[i].value);
        if |NodeBytes(keccak, children[i].value)| >= 32 {
          HashMakesLong(items, i);
        }
      }
  }

  /** Equal references come from equal nodes, unless two hashed encodings collide. */
  lemma {:induction false} RefCommits(keccak: Keccak, a: TrieNode, b: TrieNode, d: nat)
    requires Canonical(a, d) && Canonical(b, d) && Shaped(a) && Shaped(b) && Bounded(a) && Bounded(b)
    requires RefItem(keccak, a) == RefItem(keccak, b)
    ensures a == b || Collision(keccak, HashedRef(keccak, a), HashedRef(keccak, b))
    decreases a, 2
  {
    hide Encoding, NodeItem;
    var x, y := NodeBytes(keccak, a), NodeBytes(keccak, b);
    if |x| < 32 {
      NodeCommits(keccak, a, b, d);
      InlineHasNoHashes(keccak, a);
      InlineHasNoHashes(keccak, b);
    } else if x == y {
      NodeFits(keccak, a);
      EncodingInjective(NodeItem(keccak, a), NodeItem(keccak, b));
      NodeCommits(keccak, a, b, d);
    } else {
      assert x in HashedRef(keccak, a) && y in HashedRef(keccak, b);
    }
  }

  /** The three node kinds are told apart, and their fields recovered, from the item. */
  lemma {:induction false} NodeCommits(keccak: Keccak, a: TrieNode, b: TrieNode, d: nat)
    requires Canonical(a, d) && Canonical(b, d) && Shaped(a) && Shaped(b) && Bounded(a) && Bounded(b)
    requires NodeItem(keccak, a) == NodeItem(keccak, b)
    ensures a == b || Collision(keccak, Hashed(keccak, a), Hashed(keccak, b))
    decreases a, 1
  {
    hide Encoding, Hp, RefItem;
    var items, items' := NodeItem(keccak, a).items, NodeItem(keccak, b).items;
    assert items[0] == items'[0] && items[1] == items'[1];
    match a
    case Leaf(remaining, v) =>
      if b.Leaf? {
        HpInjective(remaining, true, b.remaining, true);
      } else if b.Extension? {
        HpInjective(remaining, true, b.shared, false);
      }
    case Extension(shared, child) =>
      if b.Extension? {
        HpInjective(shared, false, b.shared, false);
        RefCommits(keccak, child, b.child, d - |shared|);
        if child != b.child {
          var below, below' := HashedRef(keccak, child), HashedRef(keccak, b.child);
          assert below == HashedBelow(keccak, a) && below' == HashedBelow(keccak, b);
          CollisionGrows(keccak, below, below', Hashed(keccak, a), Hashed(keccak, b));
        }
      } else if b.Leaf? {
        HpInjective(shared, false, b.remaining, true);
      }
    case Branch(children, _) =>
      ChildrenCommit(keccak, a, b, d);
  }

  lemma {:induction false} ChildrenCommit(keccak: Keccak, a: TrieNode, b: TrieNode, d: nat)
    requires a.Branch? && b.Branch?
    requires Canonical(a, d) && Canonical(b, d) && Shaped(a) && Shaped(b) && Bounded(a) && Bounded(b)
    requires NodeItem(keccak, a) == NodeItem(keccak, b)
    ensures a == b || Collision(keccak, Hashed(keccak, a), Hashed(keccak, b))
    decreases a, 0
  {
    hide Encoding, RefItem;
    var items, items' := NodeItem(keccak, a).items, NodeItem(keccak, b).items;
    if a != b {
      assert a.children != b.children;
      var i :| 0 <= i < 16 && a.children[i] != b.children[i];
      assert items[i] == SlotItem(keccak, a.children[i]) && items'[i] == SlotItem(keccak, b.children[i]);
      RefNotEmpty(keccak, a.children[i]);
      RefNotEmpty(keccak, b.children[i]);
      var x, y := a.children[i].value, b.children[i].value;
      RefCommits(keccak, x, y, d - 1);
      assert HashedRef(keccak, x) <= HashedBelow(keccak, a) && HashedRef(keccak, y) <= HashedBelow(keccak, b);
      CollisionGrows(keccak, HashedRef(keccak, x), HashedRef(keccak, y), Hashed(keccak, a), Hashed(keccak, b));
    }
  }

  lemma {:induction false} RefNotEmpty(keccak: Keccak, slot: Slot)
    requires SlotShaped(slot)
    ensures SlotItem(keccak, slot) == Bytes([]) <==> slot.None?
  {
  }

  /** Equal root hashes: the same trie, or two distinct strings hashed on the way to the roots
      that have the same hash. */
  lemma {:induction false} RootCommits(keccak: Keccak, a: Slot, b: Slot, d: nat)
    requires SlotCanonical(a, d) && SlotCanonical(b, d) && SlotShaped(a) && SlotShaped(b)
    requires SlotBounded(a) && SlotBounded(b)
    requires RootHash(keccak, a) == RootHash(keccak, b)
    ensures a == b || Collision(keccak, HashedFor(keccak, a), HashedFor(keccak, b))
  {
    hide Encoding, NodeItem;
    var x, y := RootBytes(keccak, a), RootBytes(keccak, b);
    assert x in HashedFor(keccak, a) && y in HashedFor(keccak, b);
    if x == y {
      if a.Some? && b.Some? {
        NodeFits(keccak, a.value);
        EncodingInjective(NodeItem(keccak, a.value), NodeItem(keccak, b.value));
        NodeCommits(keccak, a.value, b.value, d);
      } else {
        NotEmptyRoot(keccak, a);
        NotEmptyRoot(keccak, b);
      }
    }
  }

  lemma {:induction false} NotEmptyRoot(keccak: Keccak, slot: Slot)
    requires SlotShaped(slot) && SlotBounded(slot)
    ensures RootBytes(keccak, slot) == [0x80] <==> slot.None?
  {
    if slot.Some? {
      var items := NodeItem(keccak, slot.value).items;
      NodeFits(keccak, slot.value);
      if Encoding(NodeItem(keccak, slot.value)) == [0x80] {
        assert Encoding(Bytes([])) == [0x80];
        EncodingInjective(NodeItem(keccak, slot.value), Bytes([]));
      }
    }
  }
}
