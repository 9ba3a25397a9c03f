/** The Merkle Patricia trie as a key-value structure: insertion, lookup and canonical shape. */
module Trie {
  import opened Primitives

  type Path = seq<nibble>

  datatype TrieNode =
    | Leaf(remaining: Path, leafValue: ByteString)
    | Extension(shared: Path, child: TrieNode)
    | Branch(children: seq<Option<TrieNode>>, value: Option<ByteString>)

  type Slot = Option<TrieNode>

  /** Every branch has its sixteen slots. */
  predicate Shaped(node: TrieNode) {
    match node
    case Leaf(_, _) => true
    case Extension(_, child) => Shaped(child)
    case Branch(children, _) =>
      && |children| == 16
      && forall i :: 0 <= i < 16 && children[i].Some? ==> Shaped(children[i].value)
  }

  predicate SlotShaped(slot: Slot) {
    slot.Some? ==> Shaped(slot.value)
  }

  /** The node in a slot; together with whether there is one, it orders recursion over slots. */
  function NodeOf(slot: Slot): TrieNode {
    if slot.Some? then slot.value else Leaf([], [])
  }

  // ---------- Keys ----------

  function Nibbles(bytes: ByteString): (p: Path)
    ensures |p| == 2 * |bytes|
  {
    if bytes == [] then [] else Nibbles(bytes[..|bytes| - 1]) + [bytes[|bytes| - 1] / 16, bytes[|bytes| - 1] % 16]
  }

  method BytesToNibbles(bytes: ByteString) returns (nibbles: Path)
    ensures nibbles == Nibbles(bytes)
  {
    nibbles := [];
    for i := 0 to |bytes|
      invariant nibbles == Nibbles(bytes[..i])
    {
      assert bytes[..i + 1][..i] == bytes[..i];
      var high: nibble := bytes[i] / 16;
      var low: nibble := bytes[i] % 16;
      nibbles := nibbles + [high];
      nibbles := nibbles + [low];
    }
    assert bytes[..|bytes|] == bytes;
  }

  /** Each byte gives its high half first. */
  lemma {:induction false} NibblesAt(bytes: ByteString, i: nat)
    requires i < |bytes|
    ensures Nibbles(bytes)[2 * i] == bytes[i] / 16 && Nibbles(bytes)[2 * i + 1] == bytes[i] % 16
  {
    if i < |bytes| - 1 {
      NibblesAt(bytes[..|bytes| - 1], i);
    }
  }

  lemma {:induction false} NibblesInjective(a: ByteString, b: ByteString)
    requires Nibbles(a) == Nibbles(b)
    ensures a == b
  {
    if a != [] {
      var a', b' := a[..|a| - 1], b[..|b| - 1];
      var pa, pb := Nibbles(a), Nibbles(b);
      assert pa[..|pa| - 2] == Nibbles(a') && pb[..|pb| - 2] == Nibbles(b');
      assert pa[|pa| - 2] == a[|a| - 1] / 16 && pb[|pb| - 2] == b[|b| - 1] / 16;
      assert pa[|pa| - 1] == a[|a| - 1] % 16 && pb[|pb| - 1] == b[|b| - 1] % 16;
      NibblesInjective(a', b');
      assert a == a' + [a[|a| - 1]] && b == b' + [b[|b| - 1]];
    }
  }

  /** How many leading nibbles two paths share. */
  function CommonPrefixLen(a: Path, b: Path): (k: nat)
    ensures k <= |a| && k <= |b| && a[..k] == b[..k]
    ensures k < |a| && k < |b| ==> a[k] != b[k]
  {
    if a == [] || b == [] || a[0] != b[0] then 0
    else
      var k := 1 + CommonPrefixLen(a[1..], b[1..]);
      assert a[..k] == [a[0]] + a[1..][..k - 1] && b[..k] == [b[0]] + b[1..][..k - 1];
      k
  }

  // ---------- Lookup: the map a trie stands for ----------

  function Lookup(node: TrieNode, path: Path): (v: Option<ByteString>)
    requires Shaped(node)
    decreases node
  {
    match node
    case Leaf(remaining, v) => if remaining == path then Some(v) else None
    case Extension(shared, child) => if shared <= path then Lookup(child, path[|shared|..]) else None
    case Branch(children, v) =>
      if path == [] then v
      else if children[path[0]].None? then None
      else Lookup(children[path[0]].value, path[1..])
  }

  function Find(slot: Slot, path: Path): (v: Option<ByteString>)
    requires SlotShaped(slot)
  {
    if slot.None? then None else Lookup(slot.value, path)
  }

  // ---------- Insertion ----------

  function NoChildren(): (children: seq<Slot>)
    ensures |children| == 16 && forall i :: 0 <= i < 16 ==> children[i].None?
  {
    seq(16, _ => None)
  }

  /** A branch below the shared nibbles; no extension when nothing is shared. */
  function UnderPrefix(shared: Path, branch: TrieNode): TrieNode {
    if shared == [] then branch else Extension(shared, branch)
  }

  /** Splitting a leaf. When one path ends at the split, its value moves to the branch
      and no extension is made for the shared nibbles. */
  function SplitLeaf(remaining: Path, oldValue: ByteString, path: Path, newValue: ByteString): TrieNode
    requires remaining != path
  {
    var k := CommonPrefixLen(remaining, path);
    if |remaining| == k then
      assert k < |path|;
      Branch(NoChildren()[path[k] := Some(Leaf(path[k + 1..], newValue))], Some(oldValue))
    else if |path| == k then
      Branch(NoChildren()[remaining[k] := Some(Leaf(remaining[k + 1..], oldValue))], Some(newValue))
    else
      var children := NoChildren()[remaining[k] := Some(Leaf(remaining[k + 1..], oldValue))]
                                 [path[k] := Some(Leaf(path[k + 1..], newValue))];
      UnderPrefix(path[..k], Branch(children, None))
  }

  /** What is left of an extension below the nibble at index k. */
  function Continuation(shared: Path, k: nat, child: TrieNode): TrieNode
    requires k < |shared|
  {
    if |shared| == k + 1 then child else Extension(shared[k + 1..], child)
  }

  function SplitExtension(shared: Path, child: TrieNode, path: Path, newValue: ByteString): TrieNode
    requires CommonPrefixLen(shared, path) < |shared|
  {
    var k := CommonPrefixLen(shared, path);
    var rest := Some(Continuation(shared, k, child));
    var branch :=
      if |path| == k then Branch(NoChildren()[shared[k] := rest], Some(newValue))
      else Branch(NoChildren()[path[k] := Some(Leaf(path[k + 1..], newValue))][shared[k] := rest], None);
    UnderPrefix(shared[..k], branch)
  }

  function Inserted(slot: Slot, path: Path, newValue: ByteString): TrieNode
    requires SlotShaped(slot)
    decreases slot.Some?, NodeOf(slot)
  {
    match slot
    case None => Leaf(path, newValue)
    case Some(Leaf(remaining, oldValue)) =>
      if remaining == path then Leaf(path, newValue) else SplitLeaf(remaining, oldValue, path, newValue)
    case Some(Extension(shared, child)) =>
      var k := CommonPrefixLen(shared, path);
      if k == |shared| then Extension(shared, Inserted(Some(child), path[k..], newValue))
      else SplitExtension(shared, child, path, newValue)
    case Some(Branch(children, v)) =>
      if path == [] then Branch(children, Some(newValue))
      else Branch(children[path[0] := Some(Inserted(children[path[0]], path[1..], newValue))], v)
  }

  lemma {:induction false} InsertedShaped(slot: Slot, path: Path, newValue: ByteString)
    requires SlotShaped(slot)
    ensures Shaped(Inserted(slot, path, newValue))
    decreases slot.Some?, NodeOf(slot)
  {
    match slot
    case None =>
    case Some(Leaf(remaining, oldValue)) =>
    case Some(Extension(shared, child)) =>
      var k := CommonPrefixLen(shared, path);
      if k == |shared| {
        InsertedShaped(Some(child), path[k..], newValue);
      }
    case Some(Branch(children, v)) =>
      if path != [] {
        InsertedShaped(children[path[0]], path[1..], newValue);
      }
  }

  /** The insertion ends at a leaf one of whose two paths is a proper prefix of the other,
      below at least one shared nibble. The code drops those shared nibbles. */
  predicate DropsSharedPrefix(slot: Slot, path: Path)
    requires SlotShaped(slot)
    decreases slot.Some?, NodeOf(slot)
  {
    match slot
    case None => false
    case Some(Leaf(remaining, _)) =>
      var k := CommonPrefixLen(remaining, path);
      remaining != path && 0 < k && (k == |remaining| || k == |path|)
    case Some(Extension(shared, child)) =>
      shared <= path && DropsSharedPrefix(Some(child), path[|shared|..])
    case Some(Branch(children, _)) =>
      path != [] && DropsSharedPrefix(children[path[0]], path[1..])
  }

  function Updated(slot: Slot, path: Path, newValue: ByteString, p: Path): Option<ByteString>
    requires SlotShaped(slot)
  {
    if p == path then Some(newValue) else Find(slot, p)
  }

  lemma {:induction false} UnderPrefixLookup(shared: Path, branch: TrieNode, p: Path)
    requires Shaped(branch)
    ensures Lookup(UnderPrefix(shared, branch), p) == if shared <= p then Lookup(branch, p[|shared|..]) else None
  {
    assert p[0..] == p;
  }

  /** Two paths are equal when they agree up to k, at k and beyond k. */
  lemma {:induction false} SplitAt(p: Path, q: Path, k: nat)
    requires k < |q|
    ensures p == q <==> q[..k] <= p && k < |p| && p[k..][0] == q[k] && p[k..][1..] == q[k + 1..]
  {
    assert q == q[..k] + [q[k]] + q[k + 1..];
    if q[..k] <= p && k < |p| && p[k..][0] == q[k] && p[k..][1..] == q[k + 1..] {
      assert p == p[..k] + [p[k]] + p[k + 1..];
      assert p[k..][1..] == p[k + 1..];
      assert p[..k] == q[..k];
    }
  }

  lemma {:induction false} SplitLeafFind(remaining: Path, oldValue: ByteString, path: Path, newValue: ByteString, p: Path)
    requires remaining != path
    requires !DropsSharedPrefix(Some(Leaf(remaining, oldValue)), path)
    ensures Lookup(SplitLeaf(remaining, oldValue, path, newValue), p)
            == if p == path then Some(newValue) else if p == remaining then Some(oldValue) else None
  {
    var k := CommonPrefixLen(remaining, path);
    if k == |remaining| || k == |path| {
      if p != [] {
        assert p == [p[0]] + p[1..];
      }
    } else {
      var children := NoChildren()[remaining[k] := Some(Leaf(remaining[k + 1..], oldValue))]
                                 [path[k] := Some(Leaf(path[k + 1..], newValue))];
      UnderPrefixLookup(path[..k], Branch(children, None), p);
      SplitAt(p, path, k);
      SplitAt(p, remaining, k);
    }
  }

  lemma {:induction false} ContinuationLookup(shared: Path, k: nat, child: TrieNode, p: Path)
    requires k < |shared| && Shaped(child)
    ensures Lookup(Continuation(shared, k, child), p)
            == if shared[k + 1..] <= p then Lookup(child, p[|shared| - k - 1..]) else None
  {
    assert p[0..] == p;
  }

  lemma {:induction false} PrefixSplitAt(shared: Path, p: Path, k: nat)
    requires k < |shared|
    ensures shared <= p <==> shared[..k] <= p && k < |p| && p[k..][0] == shared[k] && shared[k + 1..] <= p[k..][1..]
    ensures shared <= p ==> p[k..][1..][|shared| - k - 1..] == p[|shared|..]
  {
    if shared[..k] <= p && k < |p| && p[k..][0] == shared[k] && shared[k + 1..] <= p[k..][1..] {
      assert p == p[..k] + [p[k]] + p[k + 1..];
      assert p[k..][1..] == p[k + 1..];
      assert shared == shared[..k] + [shared[k]] + shared[k + 1..];
      forall i | 0 <= i < |shared| ensures shared[i] == p[i] {
        if i > k {
          assert shared[i] == shared[k + 1..][i - k - 1] == p[k + 1..][i - k - 1];
        } else if i < k {
          assert shared[i] == shared[..k][i];
        }
      }
    }
    if shared <= p {
      assert shared[k + 1..] <= p[k + 1..];
      assert p[k..][1..] == p[k + 1..];
    }
  }

  lemma {:induction false} SplitExtensionShaped(shared: Path, child: TrieNode, path: Path, newValue: ByteString)
    requires Shaped(child) && CommonPrefixLen(shared, path) < |shared|
    ensures Shaped(SplitExtension(shared, child, path, newValue))
    ensures Shaped(Continuation(shared, CommonPrefixLen(shared, path), child))
  {
  }

  lemma {:induction false} SplitExtensionFind(shared: Path, child: TrieNode, path: Path, newValue: ByteString, p: Path)
    requires Shaped(child) && CommonPrefixLen(shared, path) < |shared|
    ensures Shaped(SplitExtension(shared, child, path, newValue))
    ensures Lookup(SplitExtension(shared, child, path, newValue), p)
            == Updated(Some(Extension(shared, child)), path, newValue, p)
  {
    SplitExtensionShaped(shared, child, path, newValue);
    hide Continuation, UnderPrefix;
    var k := CommonPrefixLen(shared, path);
    var rest := Some(Continuation(shared, k, child));
    PrefixSplitAt(shared, p, k);
    if |path| == k {
      var branch := Branch(NoChildren()[shared[k] := rest], Some(newValue));
      UnderPrefixLookup(shared[..k], branch, p);
      assert shared[..k] == path;
      if path <= p && k < |p| {
        ContinuationLookup(shared, k, child, p[k..][1..]);
      }
    } else {
      var branch := Branch(NoChildren()[path[k] := Some(Leaf(path[k + 1..], newValue))][shared[k] := rest], None);
      UnderPrefixLookup(shared[..k], branch, p);
      SplitAt(p, path, k);
      if shared[..k] <= p && k < |p| {
        ContinuationLookup(shared, k, child, p[k..][1..]);
      }
    }
  }

  /** Inserting below an extension's whole path changes lookups only below it. */
  lemma {:induction false} BelowExtensionFind(
      shared: Path, child: TrieNode, grown: TrieNode, path: Path, newValue: ByteString, p: Path)
    requires Shaped(child) && Shaped(grown) && shared <= path
    requires shared <= p
             ==> Lookup(grown, p[|shared|..]) == Updated(Some(child), path[|shared|..], newValue, p[|shared|..])
    ensures Lookup(Extension(shared, grown), p) == Updated(Some(Extension(shared, child)), path, newValue, p)
  {
    assert path == shared + path[|shared|..];
    if shared <= p {
      assert p == shared + p[|shared|..];
    }
  }

  /** Inserting below one child of a branch changes lookups only below that child. */
  lemma {:induction false} BelowBranchFind(
      children: seq<Slot>, v: Option<ByteString>, grown: TrieNode, path: Path, newValue: ByteString, p: Path)
    requires Shaped(Branch(children, v)) && Shaped(grown) && path != []
    requires p != [] && p[0] == path[0]
             ==> Lookup(grown, p[1..]) == Updated(children[path[0]], path[1..], newValue, p[1..])
    ensures Shaped(Branch(children[path[0] := Some(grown)], v))
    ensures Lookup(Branch(children[path[0] := Some(grown)], v), p)
            == Updated(Some(Branch(children, v)), path, newValue, p)
  {
    assert path == [path[0]] + path[1..];
    if p != [] {
      assert p == [p[0]] + p[1..];
    }
  }

  lemma {:induction false} LeafFind(slot: Slot, path: Path, newValue: ByteString, p: Path)
    requires slot.Some? ==> slot.value.Leaf?
    requires !DropsSharedPrefix(slot, path)
    ensures Shaped(Inserted(slot, path, newValue))
    ensures Lookup(Inserted(slot, path, newValue), p) == Updated(slot, path, newValue, p)
  {
    InsertedShaped(slot, path, newValue);
    hide SplitLeaf;
    if slot.Some? && slot.value.remaining != path {
      SplitLeafFind(slot.value.remaining, slot.value.leafValue, path, newValue, p);
    }
  }

  lemma {:induction false} BranchValueFind(children: seq<Slot>, v: Option<ByteString>, newValue: ByteString, p: Path)
    requires Shaped(Branch(children, v))
    ensures Shaped(Branch(children, Some(newValue)))
    ensures Lookup(Branch(children, Some(newValue)), p) == Updated(Some(Branch(children, v)), [], newValue, p)
  {
  }

  /** Unless the insertion drops shared nibbles, it binds the new key and nothing else. */
  lemma {:induction false} InsertedFind(slot: Slot, path: Path, newValue: ByteString, p: Path)
    requires SlotShaped(slot)
    requires !DropsSharedPrefix(slot, path)
    ensures Shaped(Inserted(slot, path, newValue))
    ensures Lookup(Inserted(slot, path, newValue), p) == Updated(slot, path, newValue, p)
    decreases slot.Some?, NodeOf(slot)
  {
    InsertedShaped(slot, path, newValue);
    hide SplitLeaf, SplitExtension, Lookup, Updated;
    match slot
    case None =>
      LeafFind(slot, path, newValue, p);
    case Some(Leaf(remaining, oldValue)) =>
      LeafFind(slot, path, newValue, p);
    case Some(Extension(shared, child)) =>
      var k := CommonPrefixLen(shared, path);
      if k == |shared| {
        InsertedShaped(Some(child), path[k..], newValue);
        if shared <= p {
          InsertedFind(Some(child), path[k..], newValue, p[k..]);
        }
        BelowExtensionFind(shared, child, Inserted(Some(child), path[k..], newValue), path, newValue, p);
      } else {
        SplitExtensionFind(shared, child, path, newValue, p);
      }
    case Some(Branch(children, v)) =>
      if path == [] {
        BranchValueFind(children, v, newValue, p);
      } else {
        InsertedShaped(children[path[0]], path[1..], newValue);
        if p != [] && p[0] == path[0] {
          InsertedFind(children[path[0]], path[1..], newValue, p[1..]);
        }
        BelowBranchFind(children, v, Inserted(children[path[0]], path[1..], newValue), path, newValue, p);
      }
  }

  /** When shared nibbles are dropped, the returned path is bound wrongly afterwards. */
  lemma {:induction false} DroppedPrefixWitness(slot: Slot, path: Path, newValue: ByteString) returns (p: Path)
    requires SlotShaped(slot)
    requires DropsSharedPrefix(slot, path)
    ensures Shaped(Inserted(slot, path, newValue))
    ensures |p| < |path|
    ensures Lookup(Inserted(slot, path, newValue), p) != Updated(slot, path, newValue, p)
    decreases slot.Some?, NodeOf(slot)
  {
    InsertedShaped(slot, path, newValue);
    match slot
    case Some(Leaf(remaining, oldValue)) =>
      p := [];
    case Some(Extension(shared, child)) =>
      var k := CommonPrefixLen(shared, path);
      assert k == |shared|;
      var q := DroppedPrefixWitness(Some(child), path[k..], newValue);
      p := shared + q;
      assert p[k..] == q;
    case Some(Branch(children, v)) =>
      var q := DroppedPrefixWitness(children[path[0]], path[1..], newValue);
      p := [path[0]] + q;
      assert p[1..] == q;
  }

  /** Insertion refines the map update exactly when it does not drop shared nibbles. */
  lemma {:induction false} InsertRefinesUpdate(slot: Slot, path: Path, newValue: ByteString)
    requires SlotShaped(slot)
    ensures Shaped(Inserted(slot, path, newValue))
    ensures (forall p :: Lookup(Inserted(slot, path, newValue), p) == Updated(slot, path, newValue, p))
            <==> !DropsSharedPrefix(slot, path)
  {
    InsertedShaped(slot, path, newValue);
    if DropsSharedPrefix(slot, path) {
      var p := DroppedPrefixWitness(slot, path, newValue);
    } else {
      forall p {
        InsertedFind(slot, path, newValue, p);
      }
    }
  }

  /** The shortest example: a key of one byte and its extension by another. The first key is lost, and the empty key,
      which was never inserted, is bound instead. */
  lemma {:induction false} PrefixKeyIsLost(v: ByteString, w: ByteString)
    ensures var before := Inserted(None, Nibbles([0x12]), v);
            var after := Inserted(Some(before), Nibbles([0x12, 0x34]), w);
            && Shaped(before) && Shaped(after)
            && Lookup(before, Nibbles([0x12])) == Some(v)
            && Lookup(after, Nibbles([0x12])) == None
            && Lookup(after, []) == Some(v)
  {
    var short: Path, long: Path := [1, 2], [1, 2, 3, 4];
    assert Nibbles([0x12]) == short;
    assert Nibbles([0x12, 0x34]) == long by {
      assert [0x12, 0x34][..1] == [0x12];
    }
    var before := Inserted(None, short, v);
    assert CommonPrefixLen(short, long) == 2;
    var after := Inserted(Some(before), long, w);
    assert after == Branch(NoChildren()[3 := Some(Leaf([4], w))], Some(v)) by {
      assert long[3..] == [4];
    }
  }
}
