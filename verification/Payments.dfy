/** The client loop as its users see it: who ends up with how much. */
module Payments {
  import opened Primitives
  import opened ChainTypes
  import opened Ledger
  import opened Hashing
  import opened Execution
  import opened ProcessorSpec
  import opened ProcessorRuns
  import opened Builder
  import opened Client
  import opened Balances

  /** What the specs send to an address. */
  function Asked(specs: seq<TransactionSpec>, a: Address): nat {
    if specs == [] then 0
    else
      var last := specs[|specs| - 1];
      Asked(specs[..|specs| - 1], a) + if last.recipient == a then last.value else 0
  }

  /** What the specs cost an address that signs some of them: each its value, and its gas limit at one gigawei. */
  function Owed(specs: seq<TransactionSpec>, senders: seq<Address>, a: Address): nat
    requires |specs| == |senders|
  {
    if specs == [] then 0
    else
      var n := |specs| - 1;
      Owed(specs[..n], senders[..n], a)
      + if senders[n] == a then specs[n].value + 1_000_000_000 * specs[n].gasLimit else 0
  }

  /** The transactions carry out the specs, place by place. */
  predicate CarriesOut(txs: seq<SignedTransaction>, specs: seq<TransactionSpec>) {
    && |txs| == |specs|
    && forall i :: 0 <= i < |specs| ==>
         var tx := txs[i].transaction;
         && tx.Legacy? && tx.gasPrice == 1_000_000_000 && tx.gasLimit == specs[i].gasLimit
         && tx.to == Some(specs[i].recipient) && tx.value == specs[i].value
  }

  lemma {:induction false} SpecsAddUp(
      txs: seq<SignedTransaction>, specs: seq<TransactionSpec>, senders: seq<Address>, limit: u64, a: Address)
    requires CarriesOut(txs, specs) && |senders| == |specs|
    ensures Earned(txs, a) == Asked(specs, a) && Spent(txs, senders, limit, a) == Owed(specs, senders, a)
    decreases |specs|
  {
    if specs != [] {
      var n := |specs| - 1;
      SpecsAddUp(txs[..n], specs[..n], senders[..n], limit, a);
    }
  }

  lemma {:induction false} GeneratedCarriesOut(
    c: Crypto, addressOf: Key -> Address, b: BuilderState, specs: seq<TransactionSpec>, snapshots: Snapshots)
    requires Sound(c, addressOf) && Generated(c, b, specs, snapshots).Ok?
    ensures CarriesOut(Generated(c, b, specs, snapshots).value.transactions, specs)
  {
    hide Sound, Generated, Senders;
    GeneratedFrom(c, addressOf, b, specs, snapshots);
    var txs := Generated(c, b, specs, snapshots).value.transactions;
    forall i | 0 <= i < |specs|
      ensures var tx := txs[i].transaction;
              && tx.Legacy? && tx.gasPrice == 1_000_000_000 && tx.gasLimit == specs[i].gasLimit
              && tx.to == Some(specs[i].recipient) && tx.value == specs[i].value
    {
      assert BuiltFrom(c, b, txs[i], specs[i], addressOf(b.signingKeys[specs[i].senderIndex]), snapshots);
    }
  }

  /** A committed round gives every address what the specs send it and takes what the specs it signed cost. */
  lemma {:induction false} RoundPays(
    c: Crypto, addressOf: Key -> Address, g: Genesis, b: BuilderState, s: State, chain: seq<Block>, r: Round, a: Address)
    requires Sound(c, addressOf) && Lockstep(c, g, b, s, chain) && RoundOk(c, addressOf, b, s.store.accounts, r)
    requires Total(g.accounts) < U128_LIMIT
    ensures var s' := Handled(EnvOf(c, b.chainId), s, Generated(c, b, r.specs, r.snapshots).value, r.peerId);
            BalanceOf(s'.store.accounts, a) + Owed(r.specs, SendersOf(addressOf, b, r.specs), a)
            == BalanceOf(s.store.accounts, a) + Asked(r.specs, a)
  {
    var env, block := EnvOf(c, b.chainId), Generated(c, b, r.specs, r.snapshots).value;
    GeneratedCommits(c, addressOf, g, b, s, chain, r);
    DeliverNext(env, s, block, r.peerId);
    CommitFacts(env, s, block, chain, g.block.header.number);
    GeneratedFrom(c, addressOf, b, r.specs, r.snapshots);
    GeneratedCarriesOut(c, addressOf, b, r.specs, r.snapshots);
    hide Sound, Handled, VerdictOn, HandleCommits, Executed, Senders, Generated, BalanceOf, Total, CarriesOut;
    var senders := SendersOf(addressOf, b, r.specs);
    WholeBlock(env, s.store.accounts, BlockWithSenders(block, senders), a);
    SpecsAddUp(block.transactions, r.specs, senders, block.header.gasLimit, a);
  }

  // ---------- The whole loop ----------

  function AllAsked(rounds: seq<Round>, a: Address): nat {
    if rounds == [] then 0 else Asked(rounds[0].specs, a) + AllAsked(rounds[1..], a)
  }

  function AllOwed(addressOf: Key -> Address, b: BuilderState, rounds: seq<Round>, a: Address): nat {
    if rounds == [] then 0
    else Owed(rounds[0].specs, SendersOf(addressOf, b, rounds[0].specs), a) + AllOwed(addressOf, b, rounds[1..], a)
  }

  lemma {:induction false} SameKeysSameDebts(
      addressOf: Key -> Address, b: BuilderState, b': BuilderState, rounds: seq<Round>, a: Address)
    requires b.signingKeys == b'.signingKeys
    ensures AllOwed(addressOf, b, rounds, a) == AllOwed(addressOf, b', rounds, a)
    decreases |rounds|
  {
    if rounds != [] {
      assert SendersOf(addressOf, b, rounds[0].specs) == SendersOf(addressOf, b', rounds[0].specs);
      SameKeysSameDebts(addressOf, b, b', rounds[1..], a);
    }
  }

  /** Over any number of rounds every address has gained what all the specs sent it, less what its own cost it. */
  lemma {:induction false} LoopPays(
    c: Crypto, addressOf: Key -> Address, g: Genesis, b: BuilderState, s: State, chain: seq<Block>, rounds: seq<Round>,
    a: Address)
    requires Sound(c, addressOf) && Lockstep(c, g, b, s, chain)
    requires Total(g.accounts) < U128_LIMIT && RoundsOk(c, addressOf, b, s, rounds)
    ensures var (_, s') := ClientRan(c, addressOf, b, s, rounds);
            BalanceOf(s'.store.accounts, a) + AllOwed(addressOf, b, rounds, a)
            == BalanceOf(s.store.accounts, a) + AllAsked(rounds, a)
    decreases |rounds|
  {
    hide Sound, Distinct, Honest, SendersOf, Total, ChainInv, Handled, Generated, StampedByBuilder, BalanceOf;
    hide Asked, Owed, HashHeader, Lockstep;
    if rounds != [] {
      var block := Generated(c, b, rounds[0].specs, rounds[0].snapshots).value;
      RoundKeepsLockstep(c, addressOf, g, b, s, chain, rounds[0]);
      RoundPays(c, addressOf, g, b, s, chain, rounds[0], a);
      var b', s' := After(c, b, block), Handled(EnvOf(c, b.chainId), s, block, rounds[0].peerId);
      LoopPays(c, addressOf, g, b', s', chain + [block], rounds[1..], a);
      SameKeysSameDebts(addressOf, b, b', rounds[1..], a);
    }
  }
}
