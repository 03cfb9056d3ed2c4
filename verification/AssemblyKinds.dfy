/** The exact kinds of transactions for which block assembly is safe. */
module AssemblyKinds {
  import opened Words
  import opened Types
  import opened Ledger
  import opened Invariant
  import opened Executors
  import opened Genesis
  import opened Runs
  import opened Encoding
  import opened Hashes
  import opened Speculation
  import opened Reaping
  import opened Mempools
  import opened Overbooking
  import opened Demo

  /** Every transaction is filed under its hash and would be admitted in the state s. */
  ghost predicate PoolOk(p: Params, s: State, pool: map<Digest, Tx>) {
    forall k :: k in pool ==> k == TxHash(p, pool[k]) && Admissible(p, s.accounts, pool[k])
  }

  /** A block without evidence that carries a list reaped from an admissible pool in state s. */
  ghost predicate Built(p: Params, s: State, pool: map<Digest, Tx>, b: Block, seen: map<Address, Account>,
                        queues: seq<Queue>)
  {
    && CanAssemble(p, s, pool) && PoolOk(p, s, pool)
    && b.evidence == [] && Reaped(p, s, pool, p.maxTxPerBlock, b.txs, seen, queues)
  }

  ghost predicate OfKinds(pool: map<Digest, Tx>, kinds: set<Byte>) {
    forall k :: k in pool ==> pool[k].kind in kinds
  }

  /** In every sound state, under all parameters, every block built from a pool of these kinds executes. */
  ghost predicate AlwaysExecute(kinds: set<Byte>) {
    forall p: Params, s: State, pool: map<Digest, Tx>, b: Block, seen: map<Address, Account>, queues: seq<Queue>
      {:trigger Built(p, s, pool, b, seen, queues)} ::
      Built(p, s, pool, b, seen, queues) && OfKinds(pool, kinds) ==> ApplyBlock(p, s, b).Some?
  }

  /** The same for the states that runs reach. */
  ghost predicate AlwaysExecuteInRuns(kinds: set<Byte>) {
    forall p: Params, s: State, pool: map<Digest, Tx>, b: Block, seen: map<Address, Account>, queues: seq<Queue>
      {:trigger Built(p, s, pool, b, seen, queues)} ::
      Reached(p, s) && Built(p, s, pool, b, seen, queues) && OfKinds(pool, kinds) ==> ApplyBlock(p, s, b).Some?
  }

  // ---------- The safe kinds ----------

  lemma {:induction false} AcceptedKinds(p: Params, s: State, txs: seq<Tx>, i: nat)
    requires SpecRun(p, s, txs).Some? && i < |txs|
    ensures 1 <= txs[i].kind <= 7
  {
    SpecRunUnfold(p, s, txs);
    if i < |txs| - 1 {
      AcceptedKinds(p, s, txs[..|txs| - 1], i);
    }
  }

  lemma SafeChoice(p: Params, s: State, txs: seq<Tx>, pool: map<Digest, Tx>, kinds: set<Byte>)
    requires SpecRun(p, s, txs).Some? && OfKinds(pool, kinds) && forall i :: 0 <= i < |txs| ==> txs[i] in PoolTxs(pool)
    requires kinds !! {TX_REGISTER_NAME, TX_UNSTAKE, TX_UNSTAKE_POST}
    ensures forall i :: 0 <= i < |txs| ==> Simple(txs[i])
  {
    forall i | 0 <= i < |txs|
      ensures Simple(txs[i])
    {
      AcceptedKinds(p, s, txs, i);
      assert txs[i] in PoolTxs(pool);
    }
  }

  lemma SafeKindsExecute(p: Params, s: State, pool: map<Digest, Tx>, b: Block, seen: map<Address, Account>,
                         queues: seq<Queue>, kinds: set<Byte>)
    requires Built(p, s, pool, b, seen, queues) && OfKinds(pool, kinds)
    requires kinds !! {TX_REGISTER_NAME, TX_UNSTAKE, TX_UNSTAKE_POST}
    ensures ApplyBlock(p, s, b).Some?
  {
    SafeChoice(p, s, b.txs, pool, kinds);
    AssembledSize(queues, b.txs, pool);
    SpecExecutes(p, s, b.txs, b.header.height, b.header.timestamp, |pool|);
    DraftExecutes(p, s, b, seen);
  }

  // ---------- Any accepted pair can be reaped ----------

  lemma FromPair(first: Tx, second: Tx, a: Address)
    ensures From([first, second], a)
            == (if first.sender == a then [first] else []) + (if second.sender == a then [second] else [])
  {
    FromNext([], first, a);
    FromNext([first], second, a);
    assert [] + [first] == [first] && [first] + [second] == [first, second];
  }

  lemma QueuesOfPair(first: Tx, second: Tx, pool: map<Digest, Tx>) returns (queues: seq<Queue>)
    requires first != second && PoolTxs(pool) == {first, second} && |pool| == 2
    requires first.sender == second.sender ==> first.nonce <= second.nonce
    ensures Assembled(queues, [first, second], pool)
    ensures forall i :: 0 <= i < |queues| ==> queues[i].idx == |queues[i].txs|
  {
    FromPair(first, second, first.sender);
    FromPair(first, second, second.sender);
    if first.sender == second.sender {
      queues := [Queue(first.sender, [first, second], 2)];
      OneQueue(first, second, queues[0], pool);
    } else {
      queues := [Queue(first.sender, [first], 1)] + [Queue(second.sender, [second], 1)];
      TwoQueues(first, second, queues[0], queues[1], pool);
    }
  }

  lemma OneQueue(first: Tx, second: Tx, q: Queue, pool: map<Digest, Tx>)
    requires first.sender == second.sender && first.nonce <= second.nonce
    requires PoolTxs(pool) == {first, second} && |pool| == 2 && q == Queue(first.sender, [first, second], 2)
    requires From([first, second], first.sender) == [first, second]
    ensures Assembled([q], [first, second], pool)
  {
    OneQueueWell(first, second, q);
    UsedUp(q);
    assert [q][0] == q && first in q.txs && second in q.txs;
    PairQueued(first, second, [q], pool);
    OneTaken(q, [first, second]);
  }

  lemma UsedUp(q: Queue)
    requires q.idx == |q.txs|
    ensures Remaining([q]) == 0
  {
    assert [q][..0] == [];
  }

  lemma OneTaken(q: Queue, chosen: seq<Tx>)
    requires q.idx == |q.txs| && From(chosen, q.address) == q.txs
    ensures TakenInOrder([q], chosen)
  {
    assert q.txs[..q.idx] == q.txs;
    assert TakenFrom(q, chosen);
  }

  lemma OneQueueWell(first: Tx, second: Tx, q: Queue)
    requires first.sender == second.sender && first.nonce <= second.nonce
    requires q == Queue(first.sender, [first, second], 2)
    ensures WellQueued([q], {first, second})
  {
    assert [q][0] == q && q.txs[0] == first && q.txs[1] == second;
  }

  lemma PairQueued(first: Tx, second: Tx, queues: seq<Queue>, pool: map<Digest, Tx>)
    requires PoolTxs(pool) == {first, second} && Queued(queues, first) && Queued(queues, second)
    ensures AllQueued(queues, pool)
  {
    forall k | k in pool
      ensures Queued(queues, pool[k])
    {
      assert pool[k] in PoolTxs(pool);
    }
  }

  lemma TwoQueues(first: Tx, second: Tx, q: Queue, r: Queue, pool: map<Digest, Tx>)
    requires first.sender != second.sender && PoolTxs(pool) == {first, second} && |pool| == 2
    requires q == Queue(first.sender, [first], 1) && r == Queue(second.sender, [second], 1)
    requires From([first, second], first.sender) == [first] && From([first, second], second.sender) == [second]
    ensures Assembled([q] + [r], [first, second], pool)
  {
    SingleWell(first, q);
    SingleWell(second, r);
    WiderPool(r, {second}, {first, second});
    NewQueueWell([q], r, {first}, {first, second});
    UsedUp(q);
    BothUsedUp(q, r);
    assert [q][0] == q;
    NewQueueHolds([q], r, first);
    NewQueueHolds([q], r, second);
    PairQueued(first, second, [q] + [r], pool);
    OneTaken(q, [first, second]);
    BothTaken(q, r, [first, second]);
  }

  lemma BothUsedUp(q: Queue, r: Queue)
    requires Remaining([q]) == 0 && r.idx == |r.txs|
    ensures Remaining([q] + [r]) == 0
  {
    assert ([q] + [r])[..1] == [q];
  }

  lemma BothTaken(q: Queue, r: Queue, chosen: seq<Tx>)
    requires TakenInOrder([q], chosen) && r.idx == |r.txs| && From(chosen, r.address) == r.txs
    ensures TakenInOrder([q] + [r], chosen)
  {
    assert [q][0] == q && TakenFrom([q][0], chosen);
    assert r.txs[..r.idx] == r.txs;
    assert TakenFrom(r, chosen);
  }

  lemma SingleWell(tx: Tx, q: Queue)
    requires q == Queue(tx.sender, [tx], 1)
    ensures WellQueued([q], {tx})
  {
    assert [q][0] == q && q.txs[0] == tx;
  }

  lemma WiderPool(q: Queue, pool: set<Tx>, more: set<Tx>)
    requires WellQueued([q], pool) && pool <= more
    ensures WellQueued([q], more)
  {
    assert [q][0] == q;
  }

  lemma PairPool(p: Params, first: Tx, second: Tx) returns (pool: map<Digest, Tx>)
    requires TxHash(p, first) != TxHash(p, second)
    ensures pool == map[TxHash(p, first) := first, TxHash(p, second) := second]
    ensures PoolTxs(pool) == {first, second} && |pool| == 2 && forall k :: k in pool ==> k == TxHash(p, pool[k])
  {
    var j, k := TxHash(p, first), TxHash(p, second);
    pool := map[j := first, k := second];
    assert pool.Keys == {j, k};
    assert pool[j] == first && pool[k] == second;
  }

  /** Two transactions that the speculative state accepts one after the other can be reaped from the pool of the two. */
  lemma PairBuilt(p: Params, s: State, first: Tx, second: Tx, b: Block)
    returns (pool: map<Digest, Tx>, seen: map<Address, Account>, queues: seq<Queue>)
    requires Sound(p, s) && GoodParams(p) && PostIdsDistinct(p) && NonceRoom(s, 2) && p.maxTxPerBlock >= 2
    requires TxHash(p, first) != TxHash(p, second)
    requires first.sender == second.sender ==> first.nonce <= second.nonce
    requires Admissible(p, s.accounts, first) && Admissible(p, s.accounts, second)
    requires b.evidence == [] && b.txs == [first, second] && SpecRun(p, s, [first, second]).Some?
    ensures pool == map[TxHash(p, first) := first, TxHash(p, second) := second]
    ensures Built(p, s, pool, b, seen, queues)
  {
    pool := PairPool(p, first, second);
    seen := SpecRun(p, s, [first, second]).value;
    queues := QueuesOfPair(first, second, pool);
    PairOk(p, s, first, second, pool);
    PairReaped(p, s, pool, [first, second], seen, queues);
  }

  /** A list that the speculative state accepts and that uses up all queues has been reaped. */
  lemma PairReaped(p: Params, s: State, pool: map<Digest, Tx>, chosen: seq<Tx>, seen: map<Address, Account>,
                   queues: seq<Queue>)
    requires Sound(p, s) && |chosen| <= p.maxTxPerBlock && SpecRun(p, s, chosen) == Some(seen)
    requires Assembled(queues, chosen, pool) && forall i :: 0 <= i < |queues| ==> queues[i].idx == |queues[i].txs|
    ensures Reaped(p, s, pool, p.maxTxPerBlock, chosen, seen, queues)
  {
    SpecNonces(p, s, chosen);
  }

  lemma PairOk(p: Params, s: State, first: Tx, second: Tx, pool: map<Digest, Tx>)
    requires pool == map[TxHash(p, first) := first, TxHash(p, second) := second]
    requires Admissible(p, s.accounts, first) && Admissible(p, s.accounts, second)
    requires forall k :: k in pool ==> k == TxHash(p, pool[k])
    ensures PoolOk(p, s, pool)
  {
    assert forall k :: k in pool ==> pool[k] == first || pool[k] == second;
  }

  // ---------- The unsafe kinds ----------

  /** A block that was built from an admissible pool of one kind, in a reached state, and does not execute. */
  ghost predicate Refutes(p: Params, s: State, pool: map<Digest, Tx>, b: Block, seen: map<Address, Account>,
                          queues: seq<Queue>, kind: Byte)
  {
    Reached(p, s) && Built(p, s, pool, b, seen, queues) && OfKinds(pool, {kind}) && ApplyBlock(p, s, b).None?
  }

  /** The next block after state s with the two transactions. */
  function DemoBlock(s: State, first: Tx, second: Tx): Block {
    Block(Header(Wrap(s.height + 1), 0, 1, 0, 0, 0), [first, second], [], None)
  }

  lemma PairRefutes(p: Params, s: State, first: Tx, second: Tx)
    returns (pool: map<Digest, Tx>, b: Block, seen: map<Address, Account>, queues: seq<Queue>)
    requires Sound(p, s) && GoodParams(p) && PostIdsDistinct(p) && NonceRoom(s, 2) && p.maxTxPerBlock >= 2
    requires TxHash(p, first) != TxHash(p, second) && first.kind == second.kind
    requires first.sender == second.sender ==> first.nonce <= second.nonce
    requires Admissible(p, s.accounts, first) && Admissible(p, s.accounts, second)
    requires Reached(p, s) && Overbooked(p, s, DemoBlock(s, first, second))
    ensures Refutes(p, s, pool, b, seen, queues, first.kind)
  {
    b := DemoBlock(s, first, second);
    pool, seen, queues := PairBuilt(p, s, first, second, b);
    PairOfKind(TxHash(p, first), first, TxHash(p, second), second);
  }

  lemma PairOfKind(j: Digest, first: Tx, k: Digest, second: Tx)
    requires first.kind == second.kind
    ensures OfKinds(map[j := first, k := second], {first.kind})
  {}

  const NAME: Bytes := [97, 98, 99]

  lemma RegisterIsValid(p: Params, s: State, tx: Tx)
    requires p.addressOf(tx.pubKey) == tx.sender && p.txSigned(tx) && tx.sender in s.accounts && s.names == map[]
    requires s.accounts[tx.sender].name == [] && s.accounts[tx.sender].balance >= 0 && s.accounts[tx.sender].nonce == 0
    requires tx.kind == TX_REGISTER_NAME && tx.text == NAME && tx.amount == 0 && tx.nonce == 1
    ensures ValidTx(p, ReaderOf(s), tx)
  {
    assert ValidName(NAME);
  }

  lemma NameWitness()
    returns (p: Params, s: State, pool: map<Digest, Tx>, b: Block, seen: map<Address, Account>, queues: seq<Queue>)
    ensures Refutes(p, s, pool, b, seen, queues, TX_REGISTER_NAME)
  {
    var first, second := DemoTx(TX_REGISTER_NAME, 2, NO_POST, NAME, 0, 1),
                         DemoTx(TX_REGISTER_NAME, 3, NO_POST, NAME, 0, 1);
    p := TwoHashes(first, second);
    s := DemoGenesis();
    LeadsNowhere(Stream(TxHashFields(first)), s);
    LeadsReaches(Stream(TxHashFields(first)), [], s);
    RegisterIsValid(p, s, first);
    RegisterIsValid(p, s, second);
    SameNameOverbooks(p, s, first, second, DemoBlock(s, first, second));
    pool, b, seen, queues := PairRefutes(p, s, first, second);
  }

  lemma StakeWitness()
    returns (p: Params, s: State, pool: map<Digest, Tx>, b: Block, seen: map<Address, Account>, queues: seq<Queue>)
    ensures Refutes(p, s, pool, b, seen, queues, TX_UNSTAKE)
  {
    var first, second := DemoTx(TX_UNSTAKE, 1, NO_POST, [], 600, 1), DemoTx(TX_UNSTAKE, 1, NO_POST, [], 600, 2);
    p := TwoHashes(first, second);
    s := DemoGenesis();
    LeadsNowhere(Stream(TxHashFields(first)), s);
    LeadsReaches(Stream(TxHashFields(first)), [], s);
    StakeTwiceOverbooks(p, s, first, second, DemoBlock(s, first, second));
    pool, b, seen, queues := PairRefutes(p, s, first, second);
  }

  lemma PositionWitness()
    returns (p: Params, s: State, pool: map<Digest, Tx>, b: Block, seen: map<Address, Account>, queues: seq<Queue>)
    ensures Refutes(p, s, pool, b, seen, queues, TX_UNSTAKE_POST)
  {
    var first, second := DemoTx(TX_UNSTAKE_POST, 2, DEMO_POST, [], 0, 2),
                         DemoTx(TX_UNSTAKE_POST, 2, DEMO_POST, [], 0, 3);
    p := TwoHashes(first, second);
    s := DemoPosted(Stream(TxHashFields(first)));
    LeadsReaches(Stream(TxHashFields(first)), [OneTx(CREATE, 1)], s);
    UnstakeTwiceOverbooks(p, s, first, second, DemoBlock(s, first, second));
    pool, b, seen, queues := PairRefutes(p, s, first, second);
  }

  /** Block assembly is safe for a set of transaction kinds, under all parameters and in all sound states, or in all
      states that runs reach, if and only if the set contains none of name registration, unstaking and unstaking from
      a post. */
  lemma SafeKindsExactly(kinds: set<Byte>)
    ensures AlwaysExecute(kinds) <==> kinds !! {TX_REGISTER_NAME, TX_UNSTAKE, TX_UNSTAKE_POST}
    ensures AlwaysExecuteInRuns(kinds) <==> kinds !! {TX_REGISTER_NAME, TX_UNSTAKE, TX_UNSTAKE_POST}
  {
    if kinds !! {TX_REGISTER_NAME, TX_UNSTAKE, TX_UNSTAKE_POST} {
      forall p: Params, s: State, pool: map<Digest, Tx>, b: Block, seen: map<Address, Account>, queues: seq<Queue>
        | Built(p, s, pool, b, seen, queues) && OfKinds(pool, kinds)
        ensures ApplyBlock(p, s, b).Some?
      {
        SafeKindsExecute(p, s, pool, b, seen, queues, kinds);
      }
    } else {
      UnsafeKinds(kinds);
    }
  }

  lemma UnsafeKinds(kinds: set<Byte>)
    requires TX_REGISTER_NAME in kinds || TX_UNSTAKE in kinds || TX_UNSTAKE_POST in kinds
    ensures !AlwaysExecute(kinds) && !AlwaysExecuteInRuns(kinds)
  {
    if TX_REGISTER_NAME in kinds {
      var p, s, pool, b, seen, queues := NameWitness();
      Refuted(p, s, pool, b, seen, queues, TX_REGISTER_NAME, kinds);
    } else if TX_UNSTAKE in kinds {
      var p, s, pool, b, seen, queues := StakeWitness();
      Refuted(p, s, pool, b, seen, queues, TX_UNSTAKE, kinds);
    } else {
      var p, s, pool, b, seen, queues := PositionWitness();
      Refuted(p, s, pool, b, seen, queues, TX_UNSTAKE_POST, kinds);
    }
  }

  lemma Refuted(p: Params, s: State, pool: map<Digest, Tx>, b: Block, seen: map<Address, Account>, queues: seq<Queue>,
                kind: Byte, kinds: set<Byte>)
    requires Refutes(p, s, pool, b, seen, queues, kind) && kind in kinds
    ensures !AlwaysExecute(kinds) && !AlwaysExecuteInRuns(kinds)
  {
    assert Built(p, s, pool, b, seen, queues) && OfKinds(pool, kinds);
  }
}
