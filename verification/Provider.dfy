/** The in-memory provider: blocks, their indices, accounts and the undo journal. */
module Provider {
  import opened Primitives
  import opened ChainTypes
  import opened Ledger
  import opened Hashing

  // ---------- The undo journal as a value ----------

  type Journal = map<Address, Option<Account>>

  function Stored(accounts: Accounts, a: Address): Option<Account> {
    if a in accounts then Some(accounts[a]) else None
  }

  /** The first write to an address records what was there before. */
  function Recorded(journal: Journal, accounts: Accounts, a: Address): Journal {
    if a in journal then journal else journal[a := Stored(accounts, a)]
  }

  /** What rolling back yields: recorded accounts restored, recorded absences removed. */
  function Restored(accounts: Accounts, journal: Journal): Accounts {
    map a | a in accounts.Keys + journal.Keys && (if a in journal then journal[a].Some? else a in accounts)
      :: if a in journal then journal[a].value else accounts[a]
  }

  lemma {:induction false} RestoredStored(accounts: Accounts, journal: Journal, a: Address)
    ensures Stored(Restored(accounts, journal), a) == if a in journal then journal[a] else Stored(accounts, a)
  {
  }

  lemma {:induction false} SameStored(accounts: Accounts, accounts': Accounts)
    requires forall a :: Stored(accounts, a) == Stored(accounts', a)
    ensures accounts == accounts'
  {
    forall a ensures (a in accounts <==> a in accounts') && (a in accounts ==> accounts[a] == accounts'[a]) {
      assert Stored(accounts, a) == Stored(accounts', a);
    }
  }

  /** A journaled write never changes what a rollback would restore. */
  lemma {:induction false} WriteKeepsRestored(accounts: Accounts, journal: Journal, a: Address, info: Account)
    ensures Restored(accounts[a := info], Recorded(journal, accounts, a)) == Restored(accounts, journal)
  {
    var after, before := Restored(accounts[a := info], Recorded(journal, accounts, a)), Restored(accounts, journal);
    forall x ensures Stored(after, x) == Stored(before, x) {
      RestoredStored(accounts[a := info], Recorded(journal, accounts, a), x);
      RestoredStored(accounts, journal, x);
    }
    SameStored(after, before);
  }

  lemma {:induction false} NothingRecorded(accounts: Accounts)
    ensures Restored(accounts, map[]) == accounts
  {
    forall a ensures Stored(Restored(accounts, map[]), a) == Stored(accounts, a) {
      RestoredStored(accounts, map[], a);
    }
    SameStored(Restored(accounts, map[]), accounts);
  }

  /** Undoing one recorded write leaves the outcome of the whole rollback unchanged. */
  lemma {:induction false} UndoOne(accounts: Accounts, remaining: Journal, a: Address)
    requires a in remaining
    ensures Restored(if remaining[a].None? then accounts - {a} else accounts[a := remaining[a].value], remaining - {a})
            == Restored(accounts, remaining)
  {
    var undone := if remaining[a].None? then accounts - {a} else accounts[a := remaining[a].value];
    forall x ensures Stored(Restored(undone, remaining - {a}), x) == Stored(Restored(accounts, remaining), x) {
      RestoredStored(undone, remaining - {a}, x);
      RestoredStored(accounts, remaining, x);
    }
    SameStored(Restored(undone, remaining - {a}), Restored(accounts, remaining));
  }

  // ---------- The provider ----------

  /** Everything the provider keeps besides its journal. */
  datatype Store = Store(
    blocks: map<u64, Block>, blocksByHash: map<B256, u64>, transactions: map<B256, (SignedTransaction, u64)>,
    accounts: Accounts)

  function WithBlock(keccak: Keccak, s: Store, block: Block): Store {
    s.(blocks := s.blocks[block.header.number := block],
       blocksByHash := s.blocksByHash[HashHeader(keccak, block.header) := block.header.number],
       transactions := Indexed(keccak, s.transactions, block.transactions, block.header.number))
  }

  function BlockByHash(s: Store, hash: B256): (r: Result<Block, ExecutionError>) {
    if hash !in s.blocksByHash then Err(HeaderNotFound(hash))
    else
      var number := s.blocksByHash[hash];
      if number in s.blocks then Ok(s.blocks[number]) else Err(BlockNotFound(number))
  }

  class InMemoryProvider {
    var blocks: map<u64, Block>
    var blocksByHash: map<B256, u64>
    var transactions: map<B256, (SignedTransaction, u64)>
    var state: Accounts
    var journal: Option<Journal>
    const keccak: Keccak

    function View(): Store
      reads this
    {
      Store(blocks, blocksByHash, transactions, state)
    }

    /** The store as of the last commit or rollback: an open journal's writes are taken back. */
    function Committed(): Store
      reads this
    {
      View().(accounts := if journal.None? then state else Restored(state, journal.value))
    }

    constructor (keccak: Keccak)
      ensures this.keccak == keccak
      ensures blocks == map[] && blocksByHash == map[] && transactions == map[] && state == map[] && journal == None
    {
      this.keccak := keccak;
      blocks, blocksByHash, transactions, state, journal := map[], map[], map[], map[], None;
    }

    method InsertBlock(block: Block)
      modifies this`blocks, this`blocksByHash, this`transactions
      ensures View() == WithBlock(keccak, old(View()), block)
    {
      hide HashHeader, TransactionHash;
      blocksByHash := blocksByHash[HashHeader(keccak, block.header) := block.header.number];
      for i := 0 to |block.transactions|
        invariant blocks == old(blocks)
        invariant blocksByHash == old(blocksByHash)[HashHeader(keccak, block.header) := block.header.number]
        invariant transactions == Indexed(keccak, old(transactions), block.transactions[..i], block.header.number)
      {
        assert block.transactions[..i + 1][..i] == block.transactions[..i];
        var signed := block.transactions[i];
        transactions := transactions[TransactionHash(keccak, signed) := (signed, block.header.number)];
      }
      assert block.transactions[..|block.transactions|] == block.transactions;
      blocks := blocks[block.header.number := block];
    }

    method SetAccount(address: Address, info: Account)
      modifies this`state, this`journal
      ensures state == old(state)[address := info]
      ensures journal == if old(journal).None? then None else Some(Recorded(old(journal).value, old(state), address))
    {
      if journal.Some? && address !in journal.value {
        journal := Some(journal.value[address := Stored(state, address)]);
      }
      state := state[address := info];
    }

    method BeginJournal() returns (r: Result<(), ExecutionError>)
      modifies this`journal
      ensures r == if old(journal).Some? then Err(JournalAlreadySet) else Ok(())
      ensures journal == if old(journal).Some? then old(journal) else Some(map[])
    {
      if journal.Some? {
        return Err(JournalAlreadySet);
      }
      journal := Some(map[]);
      return Ok(());
    }

    method CommitJournal()
      modifies this`journal
      ensures journal == None
    {
      journal := None;
    }

    /** Undoes the recorded writes in whatever order the journal is iterated. */
    method RollbackJournal()
      modifies this`state, this`journal
      ensures journal == None
      ensures state == if old(journal).Some? then Restored(old(state), old(journal).value) else old(state)
    {
      if journal.Some? {
        hide Restored;
        var remaining := journal.value;
        while remaining != map[]
          invariant journal == old(journal)
          invariant Restored(state, remaining) == Restored(old(state), journal.value)
          decreases |remaining|
        {
          var address :| address in remaining;
          UndoOne(state, remaining, address);
          match remaining[address] {
            case None => state := state - {address};
            case Some(account) => state := state[address := account];
          }
          remaining := remaining - {address};
        }
        NothingRecorded(state);
      }
      journal := None;
    }

    function GetAccount(address: Address): (r: Result<Account, ExecutionError>)
      reads this`state
    {
      if address in state then Ok(state[address]) else Err(AccountNotFound(address))
    }
  }

  /** The transaction index after a block's transactions are added one by one. */
  function Indexed(keccak: Keccak, index: map<B256, (SignedTransaction, u64)>, txs: seq<SignedTransaction>, number: u64):
    map<B256, (SignedTransaction, u64)>
  {
    if txs == [] then index
    else
      var last := txs[|txs| - 1];
      Indexed(keccak, index, txs[..|txs| - 1], number)[TransactionHash(keccak, last) := (last, number)]
  }

  lemma {:induction false} IndexedFinds(
      keccak: Keccak, index: map<B256, (SignedTransaction, u64)>, txs: seq<SignedTransaction>, number: u64, i: nat)
    requires i < |txs|
    ensures var hash, indexed := TransactionHash(keccak, txs[i]), Indexed(keccak, index, txs, number);
            hash in indexed && indexed[hash].1 == number && TransactionHash(keccak, indexed[hash].0) == hash
  {
    hide TransactionHash;
    if i < |txs| - 1 {
      IndexedFinds(keccak, index, txs[..|txs| - 1], number, i);
    }
  }

  /** An inserted block is found by its hash, and each of its transactions under its own. */
  lemma {:induction false} InsertedIsFound(keccak: Keccak, s: Store, block: Block)
    ensures var s' := WithBlock(keccak, s, block);
            && BlockByHash(s', HashHeader(keccak, block.header)) == Ok(block)
            && forall tx :: tx in block.transactions ==>
                 var hash := TransactionHash(keccak, tx);
                 && hash in s'.transactions && s'.transactions[hash].1 == block.header.number
                 && TransactionHash(keccak, s'.transactions[hash].0) == hash
  {
    hide TransactionHash, HashHeader, Indexed;
    forall i | 0 <= i < |block.transactions|
      ensures var hash, indexed := TransactionHash(keccak, block.transactions[i]),
                                   Indexed(keccak, s.transactions, block.transactions, block.header.number);
              && hash in indexed && indexed[hash].1 == block.header.number
              && TransactionHash(keccak, indexed[hash].0) == hash
    {
      IndexedFinds(keccak, s.transactions, block.transactions, block.header.number, i);
    }
  }
}
