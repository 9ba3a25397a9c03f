/** Tries as representations of finite maps: composition from a map, and insertion in any order. */
module TrieContents {
  import opened Primitives
  import opened Trie
  import opened TrieCanonical

  type Contents = map<Path, ByteString>

  predicate KeysOfLength(m: Contents, d: nat) {
    forall p :: p in m ==> |p| == d
  }

  function Get(m: Contents, p: Path): Option<ByteString> {
    if p in m then Some(m[p]) else None
  }

  /** A canonical trie whose lookups are exactly the map's bindings. */
  ghost predicate Represents(slot: Slot, m: Contents, d: nat) {
    && SlotCanonical(slot, d)
    && SlotShaped(slot)
    && forall p :: Find(slot, p) == Get(m, p)
  }

  lemma {:induction false} LookupLength(node: TrieNode, d: nat, p: Path)
    requires Canonical(node, d) && Shaped(node) && Lookup(node, p).Some?
    ensures |p| == d
    decreases node
  {
    match node
    case Leaf(_, _) =>
    case Extension(shared, child) => LookupLength(child, d - |shared|, p[|shared|..]);
    case Branch(children, _) => LookupLength(children[p[0]].value, d - 1, p[1..]);
  }

  lemma {:induction false} RepresentsUnique(a: Slot, b: Slot, m: Contents, d: nat)
    requires Represents(a, m, d) && Represents(b, m, d)
    ensures a == b
  {
    if a.Some? && b.Some? {
      forall p: Path | |p| == d ensures Lookup(a.value, p) == Lookup(b.value, p) {
        assert Find(a, p) == Get(m, p) == Find(b, p);
      }
      CanonicalUnique(a.value, b.value, d);
    } else if a.Some? {
      var p := SomeKey(a.value, d);
      assert Find(a, p) == Get(m, p);
    } else if b.Some? {
      var p := SomeKey(b.value, d);
      assert Find(b, p) == Get(m, p);
    }
  }

  /** One trie represents one map. */
  lemma {:induction false} RepresentedMapUnique(slot: Slot, m: Contents, m': Contents, d: nat)
    requires Represents(slot, m, d) && Represents(slot, m', d)
    ensures m == m'
  {
    forall p ensures (p in m <==> p in m') && (p in m ==> m[p] == m'[p]) {
      assert Get(m, p) == Find(slot, p) == Get(m', p);
    }
  }

  lemma {:induction false} InsertRepresents(slot: Slot, m: Contents, path: Path, v: ByteString)
    requires Represents(slot, m, |path|)
    ensures SlotShaped(slot) && Represents(Some(Inserted(slot, path, v)), m[path := v], |path|)
  {
    InsertedCanonical(slot, path, v);
    CanonicalShaped(Inserted(slot, path, v), |path|);
    forall p ensures Find(Some(Inserted(slot, path, v)), p) == Get(m[path := v], p) {
      InsertedFind(slot, path, v, p);
      assert Find(slot, p) == Get(m, p);
    }
  }

  // ---------- Insertion in any order ----------

  type Entry = (Path, ByteString)

  predicate EntriesOfLength(entries: seq<Entry>, d: nat) {
    forall i :: 0 <= i < |entries| ==> |entries[i].0| == d
  }

  /** The map a sequence of insertions leaves behind: later entries overwrite earlier ones. */
  function MapOf(entries: seq<Entry>): Contents {
    if entries == [] then map[]
    else var last := entries[|entries| - 1]; MapOf(entries[..|entries| - 1])[last.0 := last.1]
  }

  ghost function Built(entries: seq<Entry>, d: nat): (slot: Slot)
    requires EntriesOfLength(entries, d)
    ensures Represents(slot, MapOf(entries), d)
  {
    if entries == [] then None
    else
      var last := entries[|entries| - 1];
      var front := Built(entries[..|entries| - 1], d);
      InsertRepresents(front, MapOf(entries[..|entries| - 1]), last.0, last.1);
      Some(Inserted(front, last.0, last.1))
  }

  /** Any two insertion sequences with the same final map build the identical trie. */
  lemma {:induction false} OrderIndependence(e: seq<Entry>, e': seq<Entry>, d: nat)
    requires EntriesOfLength(e, d) && EntriesOfLength(e', d)
    ensures Built(e, d) == Built(e', d) <==> MapOf(e) == MapOf(e')
  {
    if MapOf(e) == MapOf(e') {
      RepresentsUnique(Built(e, d), Built(e', d), MapOf(e), d);
    }
    if Built(e, d) == Built(e', d) {
      RepresentedMapUnique(Built(e, d), MapOf(e), MapOf(e'), d);
    }
  }

  // ---------- Composition straight from the map ----------

  /** The part of a map below one first nibble. */
  function Below(m: Contents, x: nibble): (t: Contents)
    ensures forall q :: q in t <==> [x] + q in m
    ensures forall q :: q in t ==> t[q] == m[[x] + q]
  {
    var tails := set p | p in m && p != [] && p[0] == x :: p[1..];
    assert forall p :: p in m && p != [] && p[0] == x ==> p == [x] + p[1..];
    assert forall q {:trigger [x] + q} :: ([x] + q)[0] == x && ([x] + q)[1..] == q;
    map q | q in tails :: m[[x] + q]
  }

  ghost predicate Only(m: Contents, p: Path) {
    p in m && forall q :: q in m ==> q == p
  }

  ghost predicate AllStartWith(m: Contents, x: nibble) {
    forall p :: p in m ==> p != [] && p[0] == x
  }

  ghost function CommonNibble(m: Contents): (x: nibble)
    requires exists x: nibble :: AllStartWith(m, x)
    ensures AllStartWith(m, x)
  {
    var x: nibble :| AllStartWith(m, x);
    x
  }

  function Prepended(x: nibble, node: TrieNode): TrieNode {
    if node.Extension? then Extension([x] + node.shared, node.child) else Extension([x], node)
  }

  /** The trie of a map by cases on its keys: none, one, a common first nibble, or a fork.
      This is the structural composition function of the Yellow Paper, Appendix D. */
  ghost function Composed(m: Contents, d: nat): Slot
    requires KeysOfLength(m, d)
    decreases d
  {
    if m == map[] then None
    else if exists p :: Only(m, p) then
      var p :| Only(m, p);
      Some(Leaf(p, m[p]))
    else if d == 0 then None
    else if exists x: nibble :: AllStartWith(m, x) then
      var x := CommonNibble(m);
      var below := Composed(Below(m, x), d - 1);
      if below.None? then None else Some(Prepended(x, below.value))
    else Some(Branch(seq(16, i requires 0 <= i < 16 => Composed(Below(m, i), d - 1)), None))
  }

  lemma {:induction false} PrependedRepresents(m: Contents, x: nibble, below: Slot, d: nat)
    requires 0 < d && KeysOfLength(m, d) && AllStartWith(m, x) && m != map[] && !exists p :: Only(m, p)
    requires Represents(below, Below(m, x), d - 1)
    ensures below.Some? && Represents(Some(Prepended(x, below.value)), m, d)
  {
    var first :| first in m;
    assert first == [x] + first[1..];
    assert Find(below, first[1..]) == Get(Below(m, x), first[1..]);
    var node := below.value;
    if node.Leaf? {
      var only := [x] + node.remaining;
      assert Find(Some(node), node.remaining) == Get(Below(m, x), node.remaining);
      forall q | q in m ensures q == only {
        assert q == [x] + q[1..];
        assert Find(Some(node), q[1..]) == Get(Below(m, x), q[1..]);
      }
      assert Only(m, only);
    }
    var grown := Prepended(x, node);
    assert Canonical(grown, d);
    CanonicalShaped(grown, d);
    forall p ensures Lookup(grown, p) == Get(m, p) {
      PrependedLookup(x, node, p);
      if p != [] && p[0] == x {
        assert p == [x] + p[1..];
        assert Find(Some(node), p[1..]) == Get(Below(m, x), p[1..]);
      }
    }
  }

  lemma {:induction false} PrependedLookup(x: nibble, node: TrieNode, p: Path)
    requires Shaped(node)
    ensures Lookup(Prepended(x, node), p) == if p != [] && p[0] == x then Lookup(node, p[1..]) else None
  {
    if p != [] && p[0] == x && node.Extension? {
      assert p == [x] + p[1..];
      assert [x] + node.shared <= p <==> node.shared <= p[1..];
      if node.shared <= p[1..] {
        assert p[1..][|node.shared|..] == p[1 + |node.shared|..];
      }
    }
  }

  lemma {:induction false} BranchRepresents(m: Contents, children: seq<Slot>, d: nat)
    requires 0 < d && KeysOfLength(m, d) && m != map[] && |children| == 16
    requires !exists x: nibble :: AllStartWith(m, x)
    requires forall i: nibble :: Represents(children[i], Below(m, i), d - 1)
    ensures Represents(Some(Branch(children, None)), m, d)
  {
    var p :| p in m;
    assert !AllStartWith(m, p[0]);
    var q :| q in m && q[0] != p[0];
    ChildPresent(m, children, p, d);
    ChildPresent(m, children, q, d);
    var i: nibble, j: nibble := p[0], q[0];
    TwoSlotsFork(children, i, j);
    var branch := Branch(children, None);
    forall i | 0 <= i < 16 && children[i].Some? ensures Canonical(children[i].value, d - 1) {
      assert Represents(children[i as nibble], Below(m, i), d - 1);
    }
    CanonicalShaped(branch, d);
    forall r ensures Lookup(branch, r) == Get(m, r) {
      if r != [] {
        assert r == [r[0]] + r[1..];
        assert Represents(children[r[0]], Below(m, r[0]), d - 1);
        assert Find(children[r[0]], r[1..]) == Get(Below(m, r[0]), r[1..]);
      }
    }
  }

  lemma {:induction false} ChildPresent(m: Contents, children: seq<Slot>, p: Path, d: nat)
    requires 0 < d && |children| == 16 && p in m && |p| == d
    requires forall i: nibble :: Represents(children[i], Below(m, i), d - 1)
    ensures children[p[0]].Some?
  {
    assert p == [p[0]] + p[1..];
    assert Represents(children[p[0]], Below(m, p[0]), d - 1);
    assert Find(children[p[0]], p[1..]) == Get(Below(m, p[0]), p[1..]);
  }

  lemma {:induction false} BelowKeys(m: Contents, x: nibble, d: nat)
    requires 0 < d && KeysOfLength(m, d)
    ensures KeysOfLength(Below(m, x), d - 1)
  {
    forall q | q in Below(m, x) ensures |q| == d - 1 {
      assert [x] + q in m;
    }
  }

  lemma {:induction false} ComposedRepresents(m: Contents, d: nat)
    requires KeysOfLength(m, d)
    ensures Represents(Composed(m, d), m, d)
    decreases d
  {
    if m == map[] {
    } else if exists p :: Only(m, p) {
    } else if d == 0 {
      var p :| p in m;
      assert Only(m, p);
    } else if exists x: nibble :: AllStartWith(m, x) {
      var x := CommonNibble(m);
      BelowKeys(m, x, d);
      ComposedRepresents(Below(m, x), d - 1);
      PrependedRepresents(m, x, Composed(Below(m, x), d - 1), d);
    } else {
      forall i: nibble ensures Represents(Composed(Below(m, i), d - 1), Below(m, i), d - 1) {
        BelowKeys(m, i, d);
        ComposedRepresents(Below(m, i), d - 1);
      }
      BranchRepresents(m, Composed(m, d).value.children, d);
    }
  }

  /** Building by insertion, in whatever order, is composition from the final map. */
  lemma {:induction false} BuiltIsComposed(entries: seq<Entry>, d: nat)
    requires EntriesOfLength(entries, d)
    ensures KeysOfLength(MapOf(entries), d)
    ensures Built(entries, d) == Composed(MapOf(entries), d)
  {
    forall p | p in MapOf(entries) ensures |p| == d {
      var slot := Built(entries, d);
      assert Find(slot, p) == Get(MapOf(entries), p);
      LookupLength(slot.value, d, p);
    }
    ComposedRepresents(MapOf(entries), d);
    RepresentsUnique(Built(entries, d), Composed(MapOf(entries), d), MapOf(entries), d);
  }
}
