/** Tries over keys of one fixed length are a canonical form of the map they represent. */
module TrieCanonical {
  import opened Primitives
  import opened Trie

  /** Extensions are non-empty and lead to branches; branches carry no value and have at least
      two children; every path from here to a value is d nibbles long. */
  predicate Canonical(node: TrieNode, d: nat) {
    match node
    case Leaf(remaining, _) => |remaining| == d
    case Extension(shared, child) => 0 < |shared| < d && child.Branch? && Canonical(child, d - |shared|)
    case Branch(children, v) =>
      && 0 < d
      && |children| == 16
      && v.None?
      && Forks(children)
      && forall i :: 0 <= i < 16 && children[i].Some? ==> Canonical(children[i].value, d - 1)
  }

  predicate Forks(children: seq<Slot>) {
    exists i, j :: 0 <= i < j < |children| && children[i].Some? && children[j].Some?
  }

  predicate SlotCanonical(slot: Slot, d: nat) {
    slot.Some? ==> Canonical(slot.value, d)
  }

  lemma {:induction false} CanonicalShaped(node: TrieNode, d: nat)
    requires Canonical(node, d)
    ensures Shaped(node)
    decreases node
  {
    match node
    case Leaf(_, _) =>
    case Extension(shared, child) =>
      CanonicalShaped(child, d - |shared|);
    case Branch(children, _) =>
      forall i | 0 <= i < 16 && children[i].Some? ensures Shaped(children[i].value) {
        CanonicalShaped(children[i].value, d - 1);
      }
  }

  lemma {:induction false} SlotCanonicalShaped(slot: Slot, d: nat)
    requires SlotCanonical(slot, d)
    ensures SlotShaped(slot)
  {
    if slot.Some? {
      CanonicalShaped(slot.value, d);
    }
  }

  // ---------- Insertion keeps the canonical shape ----------

  lemma {:induction false} TwoSlotsFork(children: seq<Slot>, i: nat, j: nat)
    requires i < |children| && j < |children| && i != j
    requires children[i].Some? && children[j].Some?
    ensures Forks(children)
  {
    if i < j {
      assert children[i].Some? && children[j].Some?;
    } else {
      assert children[j].Some? && children[i].Some?;
    }
  }

  lemma {:induction false} UnderPrefixCanonical(shared: Path, branch: TrieNode, d: nat)
    requires |shared| < d && branch.Branch? && Canonical(branch, d - |shared|)
    ensures Canonical(UnderPrefix(shared, branch), d)
  {
  }

  lemma {:induction false} EqualLengthsDiverge(a: Path, b: Path)
    requires a != b && |a| == |b|
    ensures CommonPrefixLen(a, b) < |a|
  {
    hide CommonPrefixLen;
    assert a[..|a|] == a && b[..|a|] == b;
  }

  lemma {:induction false} SplitLeafCanonical(remaining: Path, oldValue: ByteString, path: Path, newValue: ByteString)
    requires remaining != path && |remaining| == |path|
    ensures CommonPrefixLen(remaining, path) < |path|
    ensures Canonical(SplitLeaf(remaining, oldValue, path, newValue), |path|)
  {
    var k := CommonPrefixLen(remaining, path);
    EqualLengthsDiverge(remaining, path);
    hide CommonPrefixLen;
    var children := NoChildren()[remaining[k] := Some(Leaf(remaining[k + 1..], oldValue))]
                                [path[k] := Some(Leaf(path[k + 1..], newValue))];
    TwoSlotsFork(children, remaining[k], path[k]);
    UnderPrefixCanonical(path[..k], Branch(children, None), |path|);
  }

  lemma {:induction false} SplitExtensionCanonical(shared: Path, child: TrieNode, path: Path, newValue: ByteString)
    requires Canonical(Extension(shared, child), |path|)
    requires CommonPrefixLen(shared, path) < |shared|
    ensures Canonical(SplitExtension(shared, child, path, newValue), |path|)
  {
    var d, k := |path|, CommonPrefixLen(shared, path);
    var rest := Continuation(shared, k, child);
    assert Canonical(rest, d - k - 1);
    var children := NoChildren()[path[k] := Some(Leaf(path[k + 1..], newValue))][shared[k] := Some(rest)];
    TwoSlotsFork(children, path[k], shared[k]);
    UnderPrefixCanonical(shared[..k], Branch(children, None), d);
  }

  lemma {:induction false} UpdatedChildCanonical(children: seq<Slot>, i: nibble, grown: TrieNode, d: nat)
    requires Canonical(Branch(children, None), d) && Canonical(grown, d - 1)
    ensures Canonical(Branch(children[i := Some(grown)], None), d)
  {
    var a, b :| 0 <= a < b < |children| && children[a].Some? && children[b].Some?;
    TwoSlotsFork(children[i := Some(grown)], a, b);
  }

  /** With keys of one length no path is a proper prefix of another, so the two prefix cases of
      a leaf split are unreachable, and the result is again canonical. */
  lemma {:induction false} InsertedCanonical(slot: Slot, path: Path, newValue: ByteString)
    requires SlotCanonical(slot, |path|)
    ensures SlotShaped(slot)
    ensures !DropsSharedPrefix(slot, path)
    ensures Canonical(Inserted(slot, path, newValue), |path|)
    ensures slot.Some? && slot.value.Branch? ==> Inserted(slot, path, newValue).Branch?
    decreases slot.Some?, NodeOf(slot)
  {
    SlotCanonicalShaped(slot, |path|);
    match slot
    case None =>
    case Some(Leaf(remaining, oldValue)) =>
      if remaining != path {
        SplitLeafCanonical(remaining, oldValue, path, newValue);
      }
    case Some(Extension(shared, child)) =>
      var k := CommonPrefixLen(shared, path);
      if k == |shared| {
        InsertedCanonical(Some(child), path[k..], newValue);
      } else {
        SplitExtensionCanonical(shared, child, path, newValue);
      }
    case Some(Branch(children, v)) =>
      var i := path[0];
      InsertedCanonical(children[i], path[1..], newValue);
      UpdatedChildCanonical(children, i, Inserted(children[i], path[1..], newValue), |path|);
  }

  // ---------- Canonical tries with the same lookups are equal ----------

  /** Where the keys below a node first differ: right away in a branch, after the shared nibbles in an extension. */
  function ForkDepth(node: TrieNode): nat {
    if node.Extension? then |node.shared| else 0
  }

  lemma {:induction false} SomeKey(node: TrieNode, d: nat) returns (p: Path)
    requires Canonical(node, d)
    ensures Shaped(node)
    ensures |p| == d && Lookup(node, p).Some?
    decreases node
  {
    CanonicalShaped(node, d);
    match node
    case Leaf(remaining, _) =>
      p := remaining;
    case Extension(shared, child) =>
      var q := SomeKey(child, d - |shared|);
      p := shared + q;
      assert p[|shared|..] == q;
    case Branch(children, _) =>
      var i, j :| 0 <= i < j < |children| && children[i].Some? && children[j].Some?;
      p := KeyThrough(children, i, d);
  }

  lemma {:induction false} KeyThrough(children: seq<Slot>, i: nat, d: nat) returns (p: Path)
    requires Canonical(Branch(children, None), d) && i < 16 && children[i].Some?
    ensures Shaped(Branch(children, None))
    ensures |p| == d && p[0] == i && Lookup(Branch(children, None), p).Some?
    decreases children
  {
    CanonicalShaped(Branch(children, None), d);
    var q := SomeKey(children[i].value, d - 1);
    p := [i as nibble] + q;
    assert p[1..] == q;
  }

  lemma {:induction false} TwoKeys(node: TrieNode, d: nat) returns (p: Path, q: Path)
    requires Canonical(node, d) && !node.Leaf?
    ensures Shaped(node)
    ensures |p| == |q| == d && ForkDepth(node) < d
    ensures Lookup(node, p).Some? && Lookup(node, q).Some?
    ensures p[ForkDepth(node)] != q[ForkDepth(node)]
  {
    CanonicalShaped(node, d);
    if node.Branch? {
      var i, j :| 0 <= i < j < |node.children| && node.children[i].Some? && node.children[j].Some?;
      p := KeyThrough(node.children, i, d);
      q := KeyThrough(node.children, j, d);
    } else {
      var k := |node.shared|;
      var p', q' := TwoKeys(node.child, d - k);
      p, q := node.shared + p', node.shared + q';
      assert p[k..] == p' && q[k..] == q';
    }
  }

  ghost predicate Agree(a: TrieNode, b: TrieNode, d: nat)
    requires Shaped(a) && Shaped(b)
  {
    forall p: Path :: |p| == d ==> Lookup(a, p) == Lookup(b, p)
  }

  lemma {:induction false} AgreeChildren(a: seq<Slot>, b: seq<Slot>, i: nat, d: nat)
    requires i < 16 && 0 < d
    requires Canonical(Branch(a, None), d) && Canonical(Branch(b, None), d)
    requires Shaped(Branch(a, None)) && Shaped(Branch(b, None)) && Agree(Branch(a, None), Branch(b, None), d)
    ensures a[i].Some? <==> b[i].Some?
    ensures a[i].Some? ==> Agree(a[i].value, b[i].value, d - 1)
  {
    if a[i].Some? {
      var p := KeyThrough(a, i, d);
      assert b[i].Some?;
      forall q: Path | |q| == d - 1 ensures Lookup(a[i].value, q) == Lookup(b[i].value, q) {
        var p := [i as nibble] + q;
        assert p[1..] == q;
        assert Lookup(Branch(a, None), p) == Lookup(Branch(b, None), p);
      }
    } else if b[i].Some? {
      var p := KeyThrough(b, i, d);
    }
  }

  /** Nodes that agree on all keys fork at the same depth and after the same nibbles. */
  lemma {:induction false} AgreeFork(a: TrieNode, b: TrieNode, d: nat)
    requires Canonical(a, d) && Canonical(b, d) && Shaped(a) && Shaped(b) && Agree(a, b, d)
    requires !a.Leaf?
    ensures !b.Leaf? && ForkDepth(b) <= ForkDepth(a)
    ensures a.Extension? && b.Extension? ==> b.shared <= a.shared
  {
    var p, q := TwoKeys(a, d);
    assert Lookup(b, p).Some? && Lookup(b, q).Some?;
    if b.Extension? {
      assert b.shared <= p && b.shared <= q;
      if a.Extension? {
        assert a.shared <= p;
      }
    }
  }

  /** Uniqueness: a canonical trie is determined by the map it represents. */
  lemma {:induction false} CanonicalUnique(a: TrieNode, b: TrieNode, d: nat)
    requires Canonical(a, d) && Canonical(b, d) && Shaped(a) && Shaped(b)
    requires Agree(a, b, d)
    ensures a == b
    decreases a
  {
    match a
    case Leaf(remaining, v) =>
      if !b.Leaf? {
        AgreeFork(b, a, d);
      }
      assert Lookup(a, remaining) == Lookup(b, remaining);
    case Extension(shared, child) =>
      AgreeFork(a, b, d);
      AgreeFork(b, a, d);
      assert b.Extension? && b.shared == shared;
      forall q: Path | |q| == d - |shared| ensures Lookup(child, q) == Lookup(b.child, q) {
        var p := shared + q;
        assert p[|shared|..] == q;
        assert Lookup(a, p) == Lookup(b, p);
      }
      CanonicalUnique(child, b.child, d - |shared|);
    case Branch(children, v) =>
      AgreeFork(a, b, d);
      AgreeFork(b, a, d);
      assert b.Branch?;
      forall i | 0 <= i < 16 ensures children[i] == b.children[i] {
        AgreeChildren(children, b.children, i, d);
        if children[i].Some? {
          CanonicalUnique(children[i].value, b.children[i].value, d - 1);
        }
      }
  }
}
