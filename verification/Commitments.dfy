/** What header and transaction hashes pin down, as far as the hash function has no collision among them. */
module Commitments {
  import opened Primitives
  import opened Rlp
  import opened ChainTypes
  import opened TrieCommitment
  import opened StateRoot
  import opened Hashing
  import opened TypedRlp
  import opened ProcessorSpec
  import opened ProcessorRuns

  // ---------- Headers ----------

  lemma {:induction false} HeaderFits(h: Header)
    ensures Fits(HeaderItem(h))
  {
    hide Encoding, Payload, UintItem;
    BytesLen(h.parentHash);
    BytesLen(h.beneficiary);
    BytesLen(h.stateRoot);
    BytesLen(h.transactionsRoot);
    UintShort(h.gasLimit);
    UintShort(h.gasUsed);
    UintShort(h.timestamp);
    UintShort(h.number);
    var items := HeaderItem(h).items;
    ShortItems(items);
    ListLen(items);
  }

  /** A header is determined by the bytes that are hashed. */
  lemma {:induction false} HeaderBytesInjective(a: Header, b: Header)
    requires Encoding(HeaderItem(a)) == Encoding(HeaderItem(b))
    ensures a == b
  {
    hide Encoding, HeaderItem, ReadHeader;
    HeaderFits(a);
    EncodingInjective(HeaderItem(a), HeaderItem(b));
    HeaderRoundTrip(a);
    HeaderRoundTrip(b);
  }

  // ---------- Chains ----------

  /** Two different headers with one hash. */
  predicate HeadersCollide(keccak: Keccak, a: Header, b: Header) {
    && Encoding(HeaderItem(a)) != Encoding(HeaderItem(b))
    && HashHeader(keccak, a) == HashHeader(keccak, b)
  }

  predicate SomeCollision(keccak: Keccak, a: seq<Block>, b: seq<Block>) {
    exists i :: 0 <= i < |a| && i < |b| && HeadersCollide(keccak, a[i].header, b[i].header)
  }

  /** The hash of its last header pins down every header of a linked chain, or two of the headers collide. */
  lemma {:induction false} HeadCommitsToHistory(env: Env, a: seq<Block>, b: seq<Block>, i: nat)
    requires |a| == |b| > 0 && Linked(env, a) && Linked(env, b) && i < |a|
    requires HashHeader(env.keccak, a[|a| - 1].header) == HashHeader(env.keccak, b[|b| - 1].header)
    ensures a[i].header == b[i].header || SomeCollision(env.keccak, a, b)
    decreases |a|
  {
    hide HeaderItem;
    var n := |a| - 1;
    if Encoding(HeaderItem(a[n].header)) != Encoding(HeaderItem(b[n].header)) {
      assert HeadersCollide(env.keccak, a[n].header, b[n].header);
    } else {
      HeaderBytesInjective(a[n].header, b[n].header);
      if i < n {
        HeadCommitsToHistory(env, a[..n], b[..n], i);
        if SomeCollision(env.keccak, a[..n], b[..n]) {
          var j :| 0 <= j < n && HeadersCollide(env.keccak, a[..n][j].header, b[..n][j].header);
          assert HeadersCollide(env.keccak, a[j].header, b[j].header);
        }
      }
    }
  }

  /** Two nodes from one genesis that publish the same head have committed the same headers, whatever each was sent. */
  lemma {:induction false} SameHeadSameHistory(env: Env, g: Genesis, ds: seq<Delivery>, ds': seq<Delivery>, i: nat)
    requires i < |Chain(env, g, ds)|
    requires Ran(env, Initial(env, g), ds).head.number == Ran(env, Initial(env, g), ds').head.number
    requires Ran(env, Initial(env, g), ds).head.hash == Ran(env, Initial(env, g), ds').head.hash
    ensures var a, b := Chain(env, g, ds), Chain(env, g, ds');
            && |a| == |b|
            && (a[i].header == b[i].header || SomeCollision(env.keccak, a, b))
  {
    var a, b := Chain(env, g, ds), Chain(env, g, ds');
    RunKeepsChain(env, g, ds);
    RunKeepsChain(env, g, ds');
    hide Ran, Chain, HashHeader, Replayed, Linked, SomeCollision;
    assert a[|a| - 1].header.number == g.block.header.number + |a| - 1;
    assert b[|b| - 1].header.number == g.block.header.number + |b| - 1;
    HeadCommitsToHistory(env, a, b, i);
  }

  // ---------- Bodies ----------

  predicate SameBodies(a: seq<Block>, b: seq<Block>) {
    |a| == |b| && forall i :: 0 <= i < |a| ==> a[i].transactions == b[i].transactions
  }

  /** With the bodies agreeing as well, the same head means the same accounts. */
  lemma {:induction false} SameBodiesSameAccounts(env: Env, g: Genesis, ds: seq<Delivery>, ds': seq<Delivery>)
    requires Ran(env, Initial(env, g), ds).head.number == Ran(env, Initial(env, g), ds').head.number
    requires Ran(env, Initial(env, g), ds).head.hash == Ran(env, Initial(env, g), ds').head.hash
    requires SameBodies(Chain(env, g, ds), Chain(env, g, ds'))
    ensures var a, b := Chain(env, g, ds), Chain(env, g, ds');
            || Ran(env, Initial(env, g), ds).store.accounts == Ran(env, Initial(env, g), ds').store.accounts
            || SomeCollision(env.keccak, a, b)
  {
    hide Ran, Chain, HashHeader, Replayed, Linked, SomeCollision, StoresChain, HeadNames, AllNameRecipients;
    var a, b := Chain(env, g, ds), Chain(env, g, ds');
    RunKeepsChain(env, g, ds);
    RunKeepsChain(env, g, ds');
    if !SomeCollision(env.keccak, a, b) {
      forall i | 0 <= i < |a| ensures a[i] == b[i] {
        SameHeadSameHistory(env, g, ds, ds', i);
      }
      assert a == b;
    }
  }
}
