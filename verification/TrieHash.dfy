/** Node encoding and the root hash: hex-prefix paths, inlined and hashed children. */
module TrieHash {
  import opened Primitives
  import opened Rlp
  import opened Trie

  // ---------- Hex-prefix encoding ----------

  function Joined(high: nibble, low: nibble): (b: byte)
    ensures b / 16 == high && b % 16 == low
  {
    var h: int := high;
    16 * h + low
  }

  function Packed(nibbles: Path): (b: ByteString)
    requires |nibbles| % 2 == 0
    ensures 2 * |b| == |nibbles|
  {
    if nibbles == [] then []
    else
      var n := |nibbles|;
      Packed(nibbles[..n - 2]) + [Joined(nibbles[n - 2], nibbles[n - 1])]
  }

  function Hp(nibbles: Path, isLeaf: bool): (b: ByteString)
    ensures |b| == |nibbles| / 2 + 1
  {
    var flag: nibble := if isLeaf then 2 else 0;
    if |nibbles| % 2 == 0 then [Joined(flag, 0)] + Packed(nibbles)
    else [Joined(flag + 1, nibbles[0])] + Packed(nibbles[1..])
  }

  /** The reader for hex-prefix strings that Appendix C of the Yellow Paper describes. */
  function HpRead(b: ByteString): (r: (Path, bool))
    requires b != []
  {
    var flag := b[0] / 16;
    (if flag % 2 == 1 then [b[0] % 16] + Nibbles(b[1..]) else Nibbles(b[1..]), flag >= 2)
  }

  lemma {:induction false} UnpackPacked(nibbles: Path)
    requires |nibbles| % 2 == 0
    ensures Nibbles(Packed(nibbles)) == nibbles
  {
    if nibbles != [] {
      var n := |nibbles|;
      UnpackPacked(nibbles[..n - 2]);
      var b := Packed(nibbles);
      assert b[..|b| - 1] == Packed(nibbles[..n - 2]);
      assert b[|b| - 1] / 16 == nibbles[n - 2] && b[|b| - 1] % 16 == nibbles[n - 1];
      assert nibbles == nibbles[..n - 2] + [nibbles[n - 2], nibbles[n - 1]];
    }
  }

  lemma {:induction false} HpReadParts(flag: nibble, low: nibble, tail: ByteString)
    requires flag < 4
    ensures HpRead([Joined(flag, low)] + tail)
            == (if flag == 1 || flag == 3 then [low] + Nibbles(tail) else Nibbles(tail), flag >= 2)
  {
    assert ([Joined(flag, low)] + tail)[1..] == tail;
  }

  lemma {:induction false} HpRoundTrip(nibbles: Path, isLeaf: bool)
    ensures HpRead(Hp(nibbles, isLeaf)) == (nibbles, isLeaf)
  {
    var flag: nibble := if isLeaf then 2 else 0;
    if |nibbles| % 2 == 0 {
      UnpackPacked(nibbles);
      HpReadParts(flag, 0, Packed(nibbles));
    } else {
      UnpackPacked(nibbles[1..]);
      HpReadParts(flag + 1, nibbles[0], Packed(nibbles[1..]));
      assert nibbles == [nibbles[0]] + nibbles[1..];
    }
  }

  lemma {:induction false} HpInjective(a: Path, aLeaf: bool, b: Path, bLeaf: bool)
    requires Hp(a, aLeaf) == Hp(b, bLeaf)
    ensures a == b && aLeaf == bLeaf
  {
    HpRoundTrip(a, aLeaf);
    HpRoundTrip(b, bLeaf);
  }

  method HpEncode(nibbles: Path, isLeaf: bool) returns (encoding: ByteString)
    ensures encoding == Hp(nibbles, isLeaf)
  {
    encoding := [];
    if !isLeaf {
      if |nibbles| % 2 == 0 {
        encoding := encoding + [Joined(0x0, 0)];
        encoding := PushPairs(nibbles, encoding);
      } else {
        encoding := encoding + [Joined(0x1, nibbles[0])];
        encoding := PushPairs(nibbles[1..], encoding);
      }
    } else {
      if |nibbles| % 2 == 0 {
        encoding := encoding + [Joined(0x2, 0)];
        encoding := PushPairs(nibbles, encoding);
      } else {
        encoding := encoding + [Joined(0x3, nibbles[0])];
        encoding := PushPairs(nibbles[1..], encoding);
      }
    }
  }

  method PushPairs(nibbles: Path, encoding: ByteString) returns (r: ByteString)
    requires |nibbles| % 2 == 0
    ensures r == encoding + Packed(nibbles)
  {
    r := encoding;
    var i := 0;
    while i < |nibbles|
      invariant 0 <= i <= |nibbles| && i % 2 == 0
      invariant r == encoding + Packed(nibbles[..i])
    {
      assert nibbles[..i + 2][..i] == nibbles[..i];
      r := r + [Joined(nibbles[i], nibbles[i + 1])];
      i := i + 2;
    }
    assert nibbles[..|nibbles|] == nibbles;
  }

  // ---------- Nodes as RLP items ----------

  function ValueItem(v: Option<ByteString>): RlpItem {
    Bytes(if v.Some? then v.value else [])
  }

  function NodeItem(keccak: Keccak, node: TrieNode): (item: RlpItem)
    requires Shaped(node)
    ensures item.List?
    decreases node, 0
  {
    match node
    case Leaf(remaining, v) => List([Bytes(Hp(remaining, true)), Bytes(v)])
    case Extension(shared, child) => List([Bytes(Hp(shared, false)), RefItem(keccak, child)])
    case Branch(children, v) =>
      List(seq(16, i requires 0 <= i < 16 => SlotItem(keccak, children[i])) + [ValueItem(v)])
  }

  /** How a parent refers to a node: its own item when that is short, its hash otherwise. */
  function RefItem(keccak: Keccak, node: TrieNode): (item: RlpItem)
    requires Shaped(node)
    decreases node, 1
  {
    var item := NodeItem(keccak, node);
    if |Encoding(item)| < 32 then item else Bytes(keccak(Encoding(item)))
  }

  function SlotItem(keccak: Keccak, slot: Slot): (item: RlpItem)
    requires SlotShaped(slot)
    decreases slot, 0
  {
    if slot.None? then Bytes([]) else RefItem(keccak, slot.value)
  }

  function NodeBytes(keccak: Keccak, node: TrieNode): ByteString
    requires Shaped(node)
  {
    Encoding(NodeItem(keccak, node))
  }

  function RootBytes(keccak: Keccak, slot: Slot): ByteString
    requires SlotShaped(slot)
  {
    if slot.None? then [0x80] else NodeBytes(keccak, slot.value)
  }

  function RootHash(keccak: Keccak, slot: Slot): B256
    requires SlotShaped(slot)
  {
    keccak(RootBytes(keccak, slot))
  }
}
